/** The strict scanner as it runs: an offset that moves through the text and a count of values
    that only grows, tied step by step to the scanner as a function.
 */
module JsonScanner {
  import opened Basics
  import opened JsonText
  import opened JsonScan
  import opened CanonicalJson
  import opened JsonEquality

  lemma DropTwice(s: Text, a: nat, b: nat)
    requires a + b <= |s|
    ensures s[a..][b..] == s[a + b..]
  {
  }

  class Scanner {
    const rules: Rules
    const text: Text
    var offset: nat
    var nodes: nat

    ghost predicate Valid()
      reads this
    {
      offset <= |text|
    }

    /** What is left to read. */
    ghost function Rest(): Text
      requires Valid()
      reads this
    {
      text[offset..]
    }

    constructor (rules: Rules, text: Text)
      ensures Valid() && this.rules == rules && this.text == text && Rest() == text && nodes == 0
    {
      this.rules, this.text, offset, nodes := rules, text, 0, 0;
    }

    method Skip()
      requires Valid()
      modifies this`offset
      ensures Valid() && old(offset) <= offset && Rest() == SkipSpace(old(Rest()))
    {
      ghost var start := Rest();
      while offset < |text| && IsSpace(text[offset])
        invariant Valid() && old(offset) <= offset && SkipSpace(Rest()) == SkipSpace(start)
      {
        assert Rest()[1..] == text[offset + 1..];
        offset := offset + 1;
      }
    }

    method Expect(u: Unit) returns (ok: bool)
      requires Valid()
      modifies this`offset
      ensures Valid() && (ok <==> StartsWith(old(Rest()), u))
      ensures if ok then offset == old(offset) + 1 && Rest() == old(Rest())[1..] else offset == old(offset)
    {
      ok := offset < |text| && text[offset] == u;
      if ok {
        offset := offset + 1;
      }
    }

    /** Moves past the quote that closes a string. */
    method FindClose() returns (closed: bool)
      requires Valid()
      modifies this`offset
      ensures Valid() && old(offset) <= offset
      ensures closed <==> BodyEnd(old(Rest())).Some?
      ensures closed ==> offset == old(offset) + BodyEnd(old(Rest())).value + 1
    {
      ghost var inside := Rest();
      while offset < |text|
        invariant Valid() && old(offset) <= offset
        invariant BodyEnd(inside) ==
                  match BodyEnd(Rest()) case None => None case Some(n) => Some(n + (offset - old(offset)))
      {
        var u := text[offset];
        ghost var here := Rest();
        offset := offset + 1;
        if u == QUOTE {
          assert BodyEnd(here) == Some(0);
          return true;
        } else if u == BACKSLASH {
          if offset >= |text| {
            assert |here| == 1;
            return false;
          }
          offset := offset + 1;
          assert here[2..] == Rest();
        } else if u < 0x20 {
          return false;
        } else {
          assert here[1..] == Rest();
        }
      }
      assert Rest() == [];
      return false;
    }

    method ParseString() returns (t: Option<Text>)
      requires Valid()
      modifies this`offset
      ensures Valid() && old(offset) <= offset
      ensures match ScanString(old(Rest()))
              case Bad => t.None?
              case Read(value, rest) => t == Some(value) && Rest() == rest && offset > old(offset)
    {
      ghost var s := Rest();
      var ok := Expect(QUOTE);
      if !ok {
        return None;
      }
      var start := offset;
      ghost var inside := Rest();
      assert inside == s[1..];
      ok := FindClose();
      if !ok {
        return None;
      }
      ghost var n := BodyEnd(inside).value;
      assert inside[..n] == text[start..offset - 1] && inside[n + 1..] == Rest();
      t := Decode(text[start..offset - 1]);
    }

    /** The outcome `v` and the state are what the scanning function gives. */
    ghost predicate Agrees(g: Scanned, v: Option<Json>)
      requires Valid()
      reads this
    {
      match g
      case Failed => v.None?
      case Got(value, rest, n) => v == Some(value) && Rest() == rest && nodes == n
    }

    method ParseValue(depth: nat) returns (v: Option<Json>)
      requires Valid()
      modifies this
      ensures Valid() && Agrees(ScanValue(rules, old(Rest()), depth, old(nodes)), v)
      decreases |text| - offset, 1
    {
      ghost var g := ScanValue(rules, Rest(), depth, nodes);
      if depth > rules.maxDepth {
        return None;
      }
      nodes := nodes + 1;
      if nodes > rules.maxNodes {
        return None;
      }
      Skip();
      ghost var s := Rest();
      assert g == ScanBlack(rules, s, depth, nodes);
      if offset < |text| && text[offset] == OPEN_OBJECT {
        v := ParseObject(depth);
      } else if offset < |text| && text[offset] == OPEN_ARRAY {
        v := ParseArray(depth);
      } else if offset < |text| && text[offset] == QUOTE {
        var t := ParseString();
        v := if t.Some? then Some(Str(t.value)) else None;
      } else {
        assert g == ScanScalar(rules, s, nodes);
        v := ParseScalar();
      }
      assert Agrees(g, v);
    }

    method ParseScalar() returns (v: Option<Json>)
      requires Valid()
      modifies this`offset
      ensures Valid() && Agrees(ScanScalar(rules, old(Rest()), nodes), v)
    {
      var n := ScalarLength(text[offset..]);
      if n == 0 {
        return None;
      }
      v := Some(ScalarValue(rules, text[offset..][..n]));
      DropTwice(text, offset, n);
      offset := offset + n;
    }

    method ParseArray(depth: nat) returns (v: Option<Json>)
      requires Valid() && StartsWith(Rest(), OPEN_ARRAY)
      modifies this
      ensures Valid() && Agrees(ScanBlack(rules, old(Rest()), depth, old(nodes)), v)
      decreases |text| - offset, 0
    {
      ghost var g := ScanBlack(rules, Rest(), depth, nodes);
      assert Rest()[1..] == text[offset + 1..];
      offset := offset + 1;
      Skip();
      var close := Expect(CLOSE_ARRAY);
      if close {
        return Some(Arr([]));
      }
      var items: seq<Json> := [];
      while true
        invariant Valid() && old(offset) < offset
        invariant g == ScanItems(rules, Rest(), items, depth, nodes)
        decreases |text| - offset
      {
        var item := ParseItem(depth);
        if item.None? {
          return None;
        }
        ghost var h := Got(item.value, Rest(), nodes);
        assert g == AfterItem(rules, h, items, depth);
        Skip();
        close := Expect(CLOSE_ARRAY);
        if close {
          return Some(Arr(items + [item.value]));
        }
        var comma := Expect(COMMA);
        if !comma {
          return None;
        }
        items := items + [item.value];
      }
    }

    method ParseItem(depth: nat) returns (v: Option<Json>)
      requires Valid()
      modifies this
      ensures Valid() && Agrees(ScanValue(rules, old(Rest()), depth + 1, old(nodes)), v)
      ensures v.Some? ==> old(offset) < offset
      decreases |text| - offset, 2
    {
      ghost var s := Rest();
      v := ParseValue(depth + 1);
      if v.Some? {
        assert |Rest()| < |s|;
      }
    }

    method ParseObject(depth: nat) returns (v: Option<Json>)
      requires Valid() && StartsWith(Rest(), OPEN_OBJECT)
      modifies this
      ensures Valid() && Agrees(ScanBlack(rules, old(Rest()), depth, old(nodes)), v)
      decreases |text| - offset, 0
    {
      ghost var g := ScanBlack(rules, Rest(), depth, nodes);
      assert Rest()[1..] == text[offset + 1..];
      offset := offset + 1;
      Skip();
      var close := Expect(CLOSE_OBJECT);
      if close {
        return Some(Obj(map[]));
      }
      var members: map<Text, Json> := map[];
      while true
        invariant Valid() && old(offset) < offset
        invariant g == ScanFields(rules, Rest(), members, depth, nodes)
        decreases |text| - offset
      {
        var key := ParseKey(members, depth);
        if key.None? {
          return None;
        }
        var item := ParseItem(depth);
        if item.None? {
          return None;
        }
        ghost var h := Got(item.value, Rest(), nodes);
        assert g == AfterMember(rules, h, members, key.value, depth);
        Skip();
        close := Expect(CLOSE_OBJECT);
        if close {
          return Some(Obj(members[key.value := item.value]));
        }
        var comma := Expect(COMMA);
        if !comma {
          return None;
        }
        members := members[key.value := item.value];
      }
    }

    /** A new key and its colon. */
    method ParseKey(members: map<Text, Json>, ghost depth: nat) returns (key: Option<Text>)
      requires Valid()
      modifies this`offset
      ensures Valid() && old(offset) <= offset
      ensures ScanFields(rules, old(Rest()), members, depth, nodes) ==
              if key.None? then Failed
              else AfterMember(rules, ScanValue(rules, Rest(), depth + 1, nodes), members, key.value, depth)
    {
      Skip();
      key := ParseString();
      if key.None? || key.value in members {
        return None;
      }
      Skip();
      var colon := Expect(COLON);
      if !colon {
        return None;
      }
    }

    /** The whole text. */
    method Read() returns (v: Option<Json>)
      requires Valid() && offset == 0 && nodes == 0
      modifies this
      ensures v == ReadStrict(rules, text)
    {
      assert Rest() == text;
      v := ParseValue(0);
      if v.Some? {
        Skip();
        if offset != |text| {
          return None;
        }
      }
    }
  }

  method ParseStrictJson(reprint: Text -> Text, text: Text, maxBytes: nat) returns (v: Option<Json>)
    ensures v == ParseStrict(reprint, text, maxBytes)
  {
    if text == [] || Utf8Size(text) > maxBytes {
      return None;
    }
    var scanner := new Scanner(Limits(reprint), text);
    v := scanner.Read();
  }

  /** A document is accepted, as `w`, exactly when it is the canonical line of `w` within the limits. */
  method ParseCanonicalJson(reprint: Text -> Text, text: Text, maxBytes: nat) returns (v: Option<Json>)
    ensures v.Some? ==> text == Canonical(v.value) + [NEWLINE]
    ensures forall w :: Printed(reprint, w) ==>
                          (v == Some(w) <==>
                           text == Canonical(w) + [NEWLINE] && Utf8Size(text) <= maxBytes && Within(Limits(reprint), w))
    ensures Prints(reprint) && v.Some? ==> Printed(reprint, v.value)
  {
    v := ParseStrictJson(reprint, text, maxBytes);
    if v.Some? && Canonical(v.value) + [NEWLINE] != text {
      v := None;
    }
    assert v == ParseCanonical(reprint, text, maxBytes);
    if Prints(reprint) && v.Some? {
      CanonicalIsFinite(reprint, text, maxBytes, v.value);
    }
    forall w | Printed(reprint, w)
      ensures v == Some(w) <==>
              text == Canonical(w) + [NEWLINE] && Utf8Size(text) <= maxBytes && Within(Limits(reprint), w)
    {
      CanonicalDecides(reprint, text, maxBytes, w);
    }
  }
}
