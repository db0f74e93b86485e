/** The lexical level of JSON: text as UTF-16 code units, white space, string bodies and their
    escapes, and the scalar tokens.
 */
module JsonText {
  import opened Basics

  type Unit = n: nat | n < 0x10000
  type Text = seq<Unit>

  const QUOTE: Unit := 0x22
  const PLUS: Unit := 0x2B
  const COMMA: Unit := 0x2C
  const MINUS: Unit := 0x2D
  const DOT: Unit := 0x2E
  const COLON: Unit := 0x3A
  const OPEN_ARRAY: Unit := 0x5B
  const BACKSLASH: Unit := 0x5C
  const CLOSE_ARRAY: Unit := 0x5D
  const OPEN_OBJECT: Unit := 0x7B
  const CLOSE_OBJECT: Unit := 0x7D
  const NEWLINE: Unit := 0x0A

  const TRUE: Text := [0x74, 0x72, 0x75, 0x65]
  const FALSE: Text := [0x66, 0x61, 0x6C, 0x73, 0x65]
  const NULL: Text := [0x6E, 0x75, 0x6C, 0x6C]

  // ----- white space

  predicate IsSpace(u: Unit) {
    u == 0x09 || u == 0x0A || u == 0x0D || u == 0x20
  }

  predicate Blank(s: Text) {
    forall u :: u in s ==> IsSpace(u)
  }

  function SkipSpace(s: Text): (rest: Text)
    ensures |rest| <= |s|
  {
    if s == [] || !IsSpace(s[0]) then s else SkipSpace(s[1..])
  }

  predicate StartsBlack(s: Text) {
    s != [] && !IsSpace(s[0])
  }

  lemma {:induction false} SkipBlank(pad: Text, s: Text)
    requires Blank(pad) && (s == [] || StartsBlack(s))
    ensures SkipSpace(pad + s) == s
  {
    if pad == [] {
      assert pad + s == s;
    } else {
      SkipBlank(pad[1..], s);
      assert (pad + s)[1..] == pad[1..] + s;
    }
  }

  lemma {:induction false} SkipSplits(s: Text) returns (pad: Text)
    ensures Blank(pad) && s == pad + SkipSpace(s)
    ensures SkipSpace(s) == [] || StartsBlack(SkipSpace(s))
  {
    if s == [] || !IsSpace(s[0]) {
      pad := [];
    } else {
      var more := SkipSplits(s[1..]);
      pad := [s[0]] + more;
      assert s == [s[0]] + (more + SkipSpace(s)) == pad + SkipSpace(s);
    }
  }

  // ----- string bodies

  /** Where the string that starts before `s` closes. */
  function BodyEnd(s: Text): (end: Option<nat>)
    ensures end.Some? ==> end.value < |s|
  {
    if s == [] then None
    else if s[0] == QUOTE then Some(0)
    else if s[0] == BACKSLASH then
      if |s| < 2 then None
      else (match BodyEnd(s[2..]) case None => None case Some(n) => Some(n + 2))
    else if s[0] < 0x20 then None
    else (match BodyEnd(s[1..]) case None => None case Some(n) => Some(n + 1))
  }

  predicate Plain(u: Unit) {
    u != QUOTE && u != BACKSLASH && u >= 0x20
  }

  /** A body that a closing quote may follow. */
  predicate Closed(body: Text) {
    body == []
    || (if body[0] == BACKSLASH then |body| >= 2 && Closed(body[2..])
        else Plain(body[0]) && Closed(body[1..]))
  }

  lemma {:induction false} ClosedEnds(body: Text, rest: Text)
    requires Closed(body)
    ensures BodyEnd(body + ([QUOTE] + rest)) == Some(|body|)
  {
    var s := body + ([QUOTE] + rest);
    if body != [] {
      var k := if body[0] == BACKSLASH then 2 else 1;
      ClosedEnds(body[k..], rest);
      assert s[k..] == body[k..] + ([QUOTE] + rest);
    }
  }

  lemma {:induction false} EndCloses(s: Text)
    requires BodyEnd(s).Some?
    ensures Closed(s[..BodyEnd(s).value]) && s[BodyEnd(s).value] == QUOTE
  {
    var n := BodyEnd(s).value;
    if s[0] != QUOTE {
      var k := if s[0] == BACKSLASH then 2 else 1;
      EndCloses(s[k..]);
      assert s[k..][..n - k] == s[..n][k..];
    }
  }

  function HexValue(u: Unit): Option<nat> {
    if 0x30 <= u <= 0x39 then Some(u - 0x30)
    else if 0x61 <= u <= 0x66 then Some(u - 0x61 + 10)
    else if 0x41 <= u <= 0x46 then Some(u - 0x41 + 10)
    else None
  }

  function HexDigit(n: nat): Unit
    requires n < 16
  {
    if n < 10 then 0x30 + n else 0x61 + n - 10
  }

  function HexUnit(s: Text): (u: Option<Unit>)
    requires |s| >= 4
  {
    var a, b, c, d := HexValue(s[0]), HexValue(s[1]), HexValue(s[2]), HexValue(s[3]);
    if a.Some? && b.Some? && c.Some? && d.Some?
    then Some(((a.value * 16 + b.value) * 16 + c.value) * 16 + d.value)
    else None
  }

  function HexText(u: Unit): Text {
    var a := u / 16;
    var b := a / 16;
    [HexDigit(b / 16), HexDigit(b % 16), HexDigit(a % 16), HexDigit(u % 16)]
  }

  lemma HexDigitValue(n: nat)
    requires n < 16
    ensures HexValue(HexDigit(n)) == Some(n)
    ensures Plain(HexDigit(n))
  {
  }

  lemma HexRoundTrip(u: Unit)
    ensures HexUnit(HexText(u)) == Some(u)
  {
    var a := u / 16;
    var b := a / 16;
    HexDigitValue(b / 16);
    HexDigitValue(b % 16);
    HexDigitValue(a % 16);
    HexDigitValue(u % 16);
  }

  /** What the escape letter `u` stands for; 0 if nothing. */
  function ShortEscape(u: Unit): Unit {
    if u == QUOTE || u == BACKSLASH || u == 0x2F then u
    else if u == 0x62 then 0x08
    else if u == 0x66 then 0x0C
    else if u == 0x6E then 0x0A
    else if u == 0x72 then 0x0D
    else if u == 0x74 then 0x09
    else 0
  }

  function Cons(u: Unit, t: Option<Text>): Option<Text> {
    if t.Some? then Some([u] + t.value) else None
  }

  /** The string that a body denotes. */
  function Decode(body: Text): Option<Text> {
    if body == [] then Some([])
    else if body[0] == BACKSLASH then
      if |body| < 2 then None
      else if ShortEscape(body[1]) != 0 then Cons(ShortEscape(body[1]), Decode(body[2..]))
      else if body[1] == 0x75 && |body| >= 6 && HexUnit(body[2..6]).Some? then
        Cons(HexUnit(body[2..6]).value, Decode(body[6..]))
      else None
    else if body[0] == QUOTE || body[0] < 0x20 then None
    else Cons(body[0], Decode(body[1..]))
  }

  predicate HighSurrogate(u: Unit) {
    0xD800 <= u < 0xDC00
  }

  predicate LowSurrogate(u: Unit) {
    0xDC00 <= u < 0xE000
  }

  /** How a unit outside a surrogate pair is printed. */
  function EscapeUnit(u: Unit): Text {
    if u == QUOTE || u == BACKSLASH then [BACKSLASH, u]
    else if u == 0x08 then [BACKSLASH, 0x62]
    else if u == 0x0C then [BACKSLASH, 0x66]
    else if u == 0x0A then [BACKSLASH, 0x6E]
    else if u == 0x0D then [BACKSLASH, 0x72]
    else if u == 0x09 then [BACKSLASH, 0x74]
    else if u < 0x20 || HighSurrogate(u) || LowSurrogate(u) then [BACKSLASH, 0x75] + HexText(u)
    else [u]
  }

  predicate StartsPair(t: Text) {
    |t| >= 2 && HighSurrogate(t[0]) && LowSurrogate(t[1])
  }

  /** A string as printed, without the quotes. */
  function Escape(t: Text): Text {
    if t == [] then []
    else if StartsPair(t) then t[..2] + Escape(t[2..])
    else EscapeUnit(t[0]) + Escape(t[1..])
  }

  lemma EscapedHex(u: Unit, rest: Text)
    ensures Decode([BACKSLASH, 0x75] + HexText(u) + rest) == Cons(u, Decode(rest))
    ensures Closed(rest) ==> Closed([BACKSLASH, 0x75] + HexText(u) + rest)
  {
    var s := [BACKSLASH, 0x75] + HexText(u) + rest;
    HexRoundTrip(u);
    assert s[2..6] == HexText(u) && s[6..] == rest;
    if Closed(rest) {
      HexClosed(u, rest);
    }
    assert s[2..] == HexText(u) + rest;
  }

  lemma EscapedShort(e: Unit, rest: Text)
    requires ShortEscape(e) != 0
    ensures Decode([BACKSLASH, e] + rest) == Cons(ShortEscape(e), Decode(rest))
    ensures Closed(rest) ==> Closed([BACKSLASH, e] + rest)
  {
    assert ([BACKSLASH, e] + rest)[2..] == rest;
  }

  lemma EscapedUnit(u: Unit, rest: Text)
    ensures Decode(EscapeUnit(u) + rest) == Cons(u, Decode(rest))
    ensures Closed(rest) ==> Closed(EscapeUnit(u) + rest)
  {
    var e := EscapeUnit(u);
    if |e| == 1 {
      assert (e + rest)[1..] == rest;
    } else if |e| == 2 {
      EscapedShort(e[1], rest);
      assert e == [BACKSLASH, e[1]];
    } else {
      EscapedHex(u, rest);
    }
  }

  lemma ClosedCons(u: Unit, rest: Text)
    requires Plain(u) && Closed(rest)
    ensures Closed([u] + rest)
  {
    assert ([u] + rest)[1..] == rest;
  }

  lemma HexClosed(u: Unit, rest: Text)
    requires Closed(rest)
    ensures Closed(HexText(u) + rest)
  {
    var h := HexText(u);
    ClosedCons(h[3], rest);
    ClosedCons(h[2], [h[3]] + rest);
    ClosedCons(h[1], [h[2]] + ([h[3]] + rest));
    ClosedCons(h[0], [h[1]] + ([h[2]] + ([h[3]] + rest)));
    assert h + rest == [h[0]] + ([h[1]] + ([h[2]] + ([h[3]] + rest)));
  }

  /** Printing a string loses nothing, and the printed body ends where it should. */
  lemma {:induction false} EscapeRoundTrip(t: Text)
    ensures Decode(Escape(t)) == Some(t) && Closed(Escape(t))
  {
    if t == [] {
    } else if StartsPair(t) {
      EscapeRoundTrip(t[2..]);
      var s := Escape(t);
      assert s[1..] == [t[1]] + Escape(t[2..]);
      assert s[1..][1..] == Escape(t[2..]);
      assert t == [t[0]] + ([t[1]] + t[2..]);
    } else {
      EscapeRoundTrip(t[1..]);
      EscapedUnit(t[0], Escape(t[1..]));
      assert t == [t[0]] + t[1..];
    }
  }

  // ----- scalars

  predicate IsDigit(u: Unit) {
    0x30 <= u <= 0x39
  }

  function Digits(s: Text): (n: nat)
    ensures n <= |s|
  {
    if s == [] || !IsDigit(s[0]) then 0 else 1 + Digits(s[1..])
  }

  function IntegerLength(s: Text): (n: nat)
    ensures n <= |s|
  {
    if s == [] then 0 else if s[0] == 0x30 then 1 else Digits(s)
  }

  function FractionLength(s: Text): (n: nat)
    ensures n <= |s|
  {
    if s != [] && s[0] == DOT && Digits(s[1..]) > 0 then 1 + Digits(s[1..]) else 0
  }

  function SignLength(s: Text): (n: nat)
    ensures n <= |s|
  {
    if s != [] && (s[0] == PLUS || s[0] == MINUS) then 1 else 0
  }

  function ExponentLength(s: Text): (n: nat)
    ensures n <= |s|
  {
    if s == [] || (s[0] != 0x65 && s[0] != 0x45) then 0
    else
      var k := 1 + SignLength(s[1..]);
      if Digits(s[k..]) > 0 then k + Digits(s[k..]) else 0
  }

  function MinusLength(s: Text): (n: nat)
    ensures n <= |s|
  {
    if s != [] && s[0] == MINUS then 1 else 0
  }

  /** The fraction and the exponent, if they are there. */
  function TailLength(s: Text): (n: nat)
    ensures n <= |s|
  {
    var k := FractionLength(s);
    k + ExponentLength(s[k..])
  }

  function UnsignedLength(s: Text): (n: nat)
    ensures n <= |s|
  {
    var k := IntegerLength(s);
    if k == 0 then 0 else k + TailLength(s[k..])
  }

  /** The longest number at the start of `s`; 0 if there is none. */
  function NumberLength(s: Text): (n: nat)
    ensures n <= |s|
  {
    var k := MinusLength(s);
    var n := UnsignedLength(s[k..]);
    if n == 0 then 0 else k + n
  }

  function ScalarLength(s: Text): (n: nat)
    ensures n <= |s|
  {
    if TRUE <= s then |TRUE| else if FALSE <= s then |FALSE| else if NULL <= s then |NULL| else NumberLength(s)
  }

  predicate IsNumber(t: Text) {
    t != [] && NumberLength(t) == |t|
  }

  predicate IsScalar(t: Text) {
    t == TRUE || t == FALSE || t == NULL || IsNumber(t)
  }

  /** No number runs on into `rest`. */
  predicate Ends(rest: Text) {
    rest == [] || (!IsDigit(rest[0]) && rest[0] !in {DOT, PLUS, MINUS, 0x65, 0x45})
  }

  lemma {:induction false} DigitsStop(t: Text, rest: Text)
    requires Ends(rest)
    ensures Digits(t + rest) == Digits(t)
  {
    if t == [] {
      assert t + rest == rest;
    } else {
      DigitsStop(t[1..], rest);
      assert (t + rest)[1..] == t[1..] + rest;
    }
  }

  lemma DropInside(t: Text, rest: Text, k: nat)
    requires k <= |t|
    ensures (t + rest)[k..] == t[k..] + rest
  {
  }

  lemma IntegerStops(t: Text, rest: Text)
    requires Ends(rest)
    ensures IntegerLength(t + rest) == IntegerLength(t)
  {
    DigitsStop(t, rest);
  }

  lemma FractionStops(t: Text, rest: Text)
    requires Ends(rest)
    ensures FractionLength(t + rest) == FractionLength(t)
  {
    if t != [] {
      DigitsStop(t[1..], rest);
      DropInside(t, rest, 1);
    }
  }

  lemma ExponentStops(t: Text, rest: Text)
    requires Ends(rest)
    ensures ExponentLength(t + rest) == ExponentLength(t)
  {
    if t != [] {
      DropInside(t, rest, 1);
      var k := 1 + SignLength(t[1..]);
      assert SignLength(t[1..] + rest) == SignLength(t[1..]);
      DropInside(t, rest, k);
      DigitsStop(t[k..], rest);
    }
  }

  lemma TailStops(t: Text, rest: Text)
    requires Ends(rest)
    ensures TailLength(t + rest) == TailLength(t)
  {
    FractionStops(t, rest);
    var k := FractionLength(t);
    DropInside(t, rest, k);
    ExponentStops(t[k..], rest);
  }

  lemma UnsignedStops(t: Text, rest: Text)
    requires Ends(rest)
    ensures UnsignedLength(t + rest) == UnsignedLength(t)
  {
    IntegerStops(t, rest);
    var k := IntegerLength(t);
    DropInside(t, rest, k);
    TailStops(t[k..], rest);
  }

  lemma NumberStops(t: Text, rest: Text)
    requires Ends(rest)
    ensures NumberLength(t + rest) == NumberLength(t)
  {
    var k := MinusLength(t);
    assert MinusLength(t + rest) == k;
    DropInside(t, rest, k);
    UnsignedStops(t[k..], rest);
  }

  /** A scalar is read whole when nothing runs on from it. */
  lemma ScalarStops(t: Text, rest: Text)
    requires IsScalar(t) && Ends(rest)
    ensures ScalarLength(t + rest) == |t|
  {
    var s := t + rest;
    assert t <= s && (t != [] ==> s[0] == t[0]);
    if IsNumber(t) {
      NumberStops(t, rest);
      NumberStart(t);
    }
  }

  lemma NumberStart(t: Text)
    requires IsNumber(t)
    ensures t[0] == MINUS || IsDigit(t[0])
    ensures t != TRUE && t != FALSE && t != NULL
  {
    assert t[0] == MINUS || IsDigit(t[0]);
  }

  /** What a scalar can start with. */
  predicate ScalarUnit(u: Unit) {
    u == MINUS || IsDigit(u) || u == TRUE[0] || u == FALSE[0] || u == NULL[0]
  }

  lemma ScalarStart(token: Text)
    requires IsScalar(token)
    ensures token != [] && ScalarUnit(token[0])
  {
    if IsNumber(token) {
      NumberStart(token);
    }
  }

  // ----- cutting a scalar out of the text

  lemma {:induction false} DigitsCut(s: Text, k: nat)
    requires Digits(s) <= k <= |s|
    ensures Digits(s[..k]) == Digits(s)
  {
    if s != [] && IsDigit(s[0]) {
      DigitsCut(s[1..], k - 1);
      assert s[1..][..k - 1] == s[..k][1..];
    }
  }

  lemma CutDrop(s: Text, k: nat, n: nat)
    requires k <= n <= |s|
    ensures s[..n][k..] == s[k..][..n - k]
  {
  }

  lemma FractionCut(s: Text, k: nat)
    requires FractionLength(s) <= k <= |s|
    ensures FractionLength(s[..k]) == FractionLength(s)
  {
    if k > 0 && s[0] == DOT {
      CutDrop(s, 1, k);
      if Digits(s[1..]) > 0 {
        DigitsCut(s[1..], k - 1);
      }
    }
  }

  lemma ExponentCut(s: Text, k: nat)
    requires ExponentLength(s) == k
    ensures ExponentLength(s[..k]) == k
  {
    if k > 0 {
      CutDrop(s, 1, k);
      var i := 1 + SignLength(s[1..]);
      CutDrop(s, i, k);
      DigitsCut(s[i..], k - i);
    }
  }

  lemma IntegerCut(s: Text, k: nat)
    requires IntegerLength(s) <= k <= |s|
    ensures IntegerLength(s[..k]) == IntegerLength(s)
  {
    if s != [] && s[0] != 0x30 {
      DigitsCut(s, k);
    }
  }

  lemma TailCut(s: Text, n: nat)
    requires TailLength(s) == n
    ensures TailLength(s[..n]) == n
  {
    FractionCut(s, n);
    var k := FractionLength(s);
    CutDrop(s, k, n);
    ExponentCut(s[k..], n - k);
  }

  lemma UnsignedCut(s: Text, n: nat)
    requires UnsignedLength(s) == n
    ensures UnsignedLength(s[..n]) == n
  {
    if n > 0 {
      IntegerCut(s, n);
      var k := IntegerLength(s);
      CutDrop(s, k, n);
      TailCut(s[k..], n - k);
    }
  }

  lemma NumberCut(s: Text)
    requires NumberLength(s) > 0
    ensures IsNumber(s[..NumberLength(s)])
  {
    var n := NumberLength(s);
    var k := MinusLength(s);
    CutDrop(s, k, n);
    UnsignedCut(s[k..], n - k);
  }

  lemma ScalarCut(s: Text)
    requires ScalarLength(s) > 0
    ensures IsScalar(s[..ScalarLength(s)])
  {
    if !(TRUE <= s) && !(FALSE <= s) && !(NULL <= s) {
      NumberCut(s);
    }
  }
}
