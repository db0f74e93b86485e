/** Equality of JSON values through their canonical texts.

    A number too large for a double is parsed as infinite and printed as `null`, so the text
    decides a value up to that confusion and no further.
 */
module JsonEquality {
  import opened Basics
  import opened JsonText
  import opened JsonScan
  import opened CanonicalJson

  // ----- parsed values

  /** A parsed value: each number stands for the text it is printed as, which is `null` for an
      infinite one. */
  ghost predicate Parsed(v: Json) {
    match v
    case Num(t) => IsNumber(t) || t == NULL
    case Arr(items) => forall i :: 0 <= i < |items| ==> Parsed(items[i])
    case Obj(members) => forall k :: k in members ==> Parsed(members[k])
    case _ => true
  }

  /** No number in the value is infinite. */
  ghost predicate Finite(v: Json) {
    match v
    case Num(t) => t != NULL
    case Arr(items) => forall i :: 0 <= i < |items| ==> Finite(items[i])
    case Obj(members) => forall k :: k in members ==> Finite(members[k])
    case _ => true
  }

  /** Nothing in the value is printed as `null`. */
  ghost predicate NullFree(v: Json) {
    match v
    case Null => false
    case Num(t) => t != NULL
    case Arr(items) => forall i :: 0 <= i < |items| ==> NullFree(items[i])
    case Obj(members) => forall k :: k in members ==> NullFree(members[k])
    case _ => true
  }

  /** The value with `null` for every infinite number. */
  function Flat(v: Json): Json {
    match v
    case Num(t) => if t == NULL then Null else v
    case Arr(items) => Arr(seq(|items|, i requires 0 <= i < |items| => Flat(items[i])))
    case Obj(members) => Obj(map k | k in members :: Flat(members[k]))
    case _ => v
  }

  /** The value with `null` and the infinite number exchanged. */
  ghost function Swapped(v: Json): Json {
    match v
    case Null => Num(NULL)
    case Num(t) => if t == NULL then Null else v
    case Arr(items) => Arr(seq(|items|, i requires 0 <= i < |items| => Swapped(items[i])))
    case Obj(members) => Obj(map k | k in members :: Swapped(members[k]))
    case _ => v
  }

  // ----- flattening keeps the text

  lemma FlatText(v: Json)
    ensures Canonical(Flat(v)) == Canonical(v)
    decreases v, 2
  {
    match v
    case Arr(_) => FlatItemsText(v, 0);
    case Obj(members) =>
      assert Flat(v).members.Keys == members.Keys;
      FlatMembersText(v, SortedKeys(members.Keys));
    case _ =>
  }

  lemma FlatItemsText(v: Json, i: nat)
    requires v.Arr? && i <= |v.items|
    ensures CanonicalItems(Flat(v), i) == CanonicalItems(v, i)
    decreases v, 1, |v.items| - i
  {
    if i == |v.items| {
    } else {
      FlatText(v.items[i]);
      FlatItemsText(v, i + 1);
    }
  }

  lemma FlatMembersText(v: Json, keys: seq<Text>)
    requires v.Obj? && forall k :: k in keys ==> k in v.members
    ensures CanonicalMembers(Flat(v), keys) == CanonicalMembers(v, keys)
    decreases v, 1, |keys|
  {
    if keys == [] {
    } else {
      FlatText(v.members[keys[0]]);
      FlatMembersText(v, keys[1..]);
    }
  }

  lemma {:induction false} FlatPrinted(v: Json)
    requires Parsed(v)
    ensures Printed(Same, Flat(v))
  {
    match v
    case Arr(items) =>
      forall i | 0 <= i < |items|
        ensures Printed(Same, Flat(items[i]))
      {
        FlatPrinted(items[i]);
      }
    case Obj(members) =>
      forall k | k in members
        ensures Printed(Same, Flat(members[k]))
      {
        FlatPrinted(members[k]);
      }
    case _ =>
  }

  lemma {:induction false} FiniteFlat(v: Json)
    ensures Finite(v) <==> Flat(v) == v
  {
    match v
    case Arr(items) =>
      forall i | 0 <= i < |items|
        ensures Finite(items[i]) <==> Flat(v).items[i] == items[i]
      {
        FiniteFlat(items[i]);
      }
      assert Flat(v) == v <==> Flat(v).items == items;
    case Obj(members) =>
      forall k | k in members
        ensures Finite(members[k]) <==> Flat(v).members[k] == members[k]
      {
        FiniteFlat(members[k]);
      }
      assert Flat(v) == v <==> Flat(v).members == members;
    case _ =>
  }

  /** Parsed values print alike exactly when they agree up to infinite numbers; so the text
      decides the value when no number overflowed. */
  lemma TextDecidesValue(v: Json, w: Json)
    requires Parsed(v) && Parsed(w)
    ensures Canonical(v) == Canonical(w) <==> Flat(v) == Flat(w)
    ensures Finite(v) && Finite(w) ==> (Canonical(v) == Canonical(w) <==> v == w)
  {
    FlatText(v);
    FlatText(w);
    FlatPrinted(v);
    FlatPrinted(w);
    FiniteTextDecides(Flat(v), Flat(w));
    FiniteFlat(v);
    FiniteFlat(w);
  }

  // ----- which values are known by their text

  lemma {:induction false} SwappedFlat(v: Json)
    requires Parsed(v)
    ensures Parsed(Swapped(v)) && Flat(Swapped(v)) == Flat(v)
  {
    match v
    case Arr(items) =>
      forall i | 0 <= i < |items|
        ensures Parsed(Swapped(items[i])) && Flat(Swapped(items[i])) == Flat(items[i])
      {
        SwappedFlat(items[i]);
      }
      assert Flat(Swapped(v)).items == Flat(v).items;
    case Obj(members) =>
      forall k | k in members
        ensures Parsed(Swapped(members[k])) && Flat(Swapped(members[k])) == Flat(members[k])
      {
        SwappedFlat(members[k]);
      }
      assert Flat(Swapped(v)).members == Flat(v).members;
    case _ =>
  }

  lemma {:induction false} SwappedSame(v: Json)
    ensures Swapped(v) == v <==> NullFree(v)
  {
    match v
    case Arr(items) =>
      forall i | 0 <= i < |items|
        ensures Swapped(v).items[i] == items[i] <==> NullFree(items[i])
      {
        SwappedSame(items[i]);
      }
      assert Swapped(v) == v <==> Swapped(v).items == items;
    case Obj(members) =>
      forall k | k in members
        ensures Swapped(v).members[k] == members[k] <==> NullFree(members[k])
      {
        SwappedSame(members[k]);
      }
      assert Swapped(v) == v <==> Swapped(v).members == members;
    case _ =>
  }

  lemma {:induction false} NullFreeFlat(v: Json)
    requires NullFree(Flat(v))
    ensures Flat(v) == v
  {
    match v
    case Arr(items) =>
      forall i | 0 <= i < |items|
        ensures Flat(v).items[i] == items[i]
      {
        assert NullFree(Flat(v).items[i]);
        NullFreeFlat(items[i]);
      }
      assert Flat(v).items == items;
    case Obj(members) =>
      forall k | k in members
        ensures Flat(v).members[k] == members[k]
      {
        assert NullFree(Flat(v).members[k]);
        NullFreeFlat(members[k]);
      }
      assert Flat(v).members == members;
    case _ =>
  }

  lemma {:induction false} NullFreeFinite(v: Json)
    requires NullFree(v)
    ensures Finite(v)
  {
    match v
    case Arr(items) =>
      forall i | 0 <= i < |items|
        ensures Finite(items[i])
      {
        NullFreeFinite(items[i]);
      }
    case Obj(members) =>
      forall k | k in members
        ensures Finite(members[k])
      {
        NullFreeFinite(members[k]);
      }
    case _ =>
  }

  /** No other parsed value is printed as `v` is. */
  ghost predicate Known(v: Json) {
    forall w :: Parsed(w) && Canonical(w) == Canonical(v) ==> w == v
  }

  /** A value is known by its text exactly when nothing in it is printed as `null`. */
  lemma KnownByText(v: Json)
    requires Parsed(v)
    ensures Known(v) <==> NullFree(v)
  {
    var w := Swapped(v);
    SwappedFlat(v);
    SwappedSame(v);
    TextDecidesValue(w, v);
    if NullFree(v) {
      NullFreeFinite(v);
      FiniteFlat(v);
      forall w | Parsed(w) && Canonical(w) == Canonical(v)
        ensures w == v
      {
        TextDecidesValue(w, v);
        NullFreeFlat(w);
      }
    }
  }

  // ----- values that have been read

  /** How numbers are printed: as `null`, or as a number's text that is printed as itself. */
  ghost predicate Prints(reprint: Text -> Text) {
    forall t :: IsNumber(t) ==> Settled(reprint, reprint(t))
  }

  predicate Settled(reprint: Text -> Text, t: Text) {
    t == NULL || (IsNumber(t) && reprint(t) == t)
  }

  /** Every number in the value is what `reprint` prints. */
  ghost predicate Reprinted(reprint: Text -> Text, v: Json) {
    match v
    case Num(t) => Settled(reprint, t)
    case Arr(items) => forall i :: 0 <= i < |items| ==> Reprinted(reprint, items[i])
    case Obj(members) => forall k :: k in members ==> Reprinted(reprint, members[k])
    case _ => true
  }

  ghost predicate AllReprinted(reprint: Text -> Text, members: map<Text, Json>) {
    forall k :: k in members ==> Reprinted(reprint, members[k])
  }

  lemma {:induction false} TreeReprinted(r: Rules, tree: Tree)
    requires WellFormed(tree) && Prints(r.reprint)
    ensures Reprinted(r.reprint, ValueOf(r, tree))
  {
    match tree
    case Array(_, items) => ItemsReprinted(r, items, []);
    case Object(_, fields) => FieldsReprinted(r, fields, map[]);
    case _ =>
  }

  lemma {:induction false} ItemsReprinted(r: Rules, items: Items, before: seq<Json>)
    requires WellFormedItems(items) && Prints(r.reprint)
    requires forall i :: 0 <= i < |before| ==> Reprinted(r.reprint, before[i])
    ensures forall v :: v in ItemsOf(r, items, before) ==> Reprinted(r.reprint, v)
  {
    TreeReprinted(r, items.tree);
    if items.MoreItems? {
      ItemsReprinted(r, items.items, before + [ValueOf(r, items.tree)]);
    }
  }

  lemma {:induction false} FieldsReprinted(r: Rules, fields: Fields, before: map<Text, Json>)
    requires WellFormedFields(fields) && Prints(r.reprint)
    requires AllReprinted(r.reprint, before)
    ensures AllReprinted(r.reprint, MembersOf(r, fields, before))
  {
    TreeReprinted(r, fields.field.tree);
    var more := before[fields.field.key := ValueOf(r, fields.field.tree)];
    assert AllReprinted(r.reprint, more);
    match fields
    case LastField(_) =>
    case MoreFields(_, rest) => FieldsReprinted(r, rest, more);
  }

  lemma {:induction false} ReprintedFlat(reprint: Text -> Text, v: Json)
    requires Reprinted(reprint, v)
    ensures Parsed(v) && Printed(reprint, Flat(v))
  {
    match v
    case Arr(items) =>
      forall i | 0 <= i < |items|
        ensures Parsed(items[i]) && Printed(reprint, Flat(items[i]))
      {
        ReprintedFlat(reprint, items[i]);
      }
    case Obj(members) =>
      forall k | k in members
        ensures Parsed(members[k]) && Printed(reprint, Flat(members[k]))
      {
        ReprintedFlat(reprint, members[k]);
      }
    case _ =>
  }

  /** Whatever is read is a parsed value. */
  lemma ReadIsParsed(r: Rules, text: Text, v: Json)
    requires Prints(r.reprint) && ReadStrict(r, text) == Some(v)
    ensures Parsed(v) && Printed(r.reprint, Flat(v))
  {
    StrictDecides(r, text, v);
    var tree, tail :| Spells(r, text, tree, tail) && ValueOf(r, tree) == v;
    TreeReprinted(r, tree);
    ReprintedFlat(r.reprint, v);
  }

  /** An infinite number is never read from a canonical text: together with CanonicalDecides, a
      document is accepted exactly as the finite value it is the canonical line of. */
  lemma CanonicalIsFinite(reprint: Text -> Text, text: Text, maxBytes: nat, v: Json)
    requires Prints(reprint) && ParseCanonical(reprint, text, maxBytes) == Some(v)
    ensures Finite(v) && Printed(reprint, v)
  {
    ReadIsParsed(Limits(reprint), text, v);
    FlatText(v);
    ReadsBack(Limits(reprint), Flat(v), [NEWLINE]);
    FiniteFlat(v);
  }

  // ----- equality through the printed text

  /** Equal up to infinite numbers. */
  ghost predicate Alike(v: Json, w: Json) {
    Flat(v) == Flat(w)
  }

  /** Whether a list repeats a value, found by remembering printed texts. */
  method FindRepeat(items: seq<Json>) returns (repeated: bool)
    requires forall i :: 0 <= i < |items| ==> Parsed(items[i])
    ensures repeated <==> exists i, j :: 0 <= i < j < |items| && Alike(items[i], items[j])
  {
    var seen: set<Text> := {};
    ghost var texts: seq<Text> := [];
    for k := 0 to |items|
      invariant |texts| == k && forall i :: 0 <= i < k ==> texts[i] == Canonical(items[i])
      invariant forall t :: t in seen <==> t in texts
      invariant forall i, j :: 0 <= i < j < k ==> !Alike(items[i], items[j])
    {
      var printed := Canonical(items[k]);
      SeenBefore(items, k, texts, printed);
      if printed in seen {
        return true;
      }
      seen, texts := seen + {printed}, texts + [printed];
    }
    return false;
  }

  lemma SeenBefore(items: seq<Json>, k: nat, texts: seq<Text>, printed: Text)
    requires k < |items| && forall i :: 0 <= i < |items| ==> Parsed(items[i])
    requires |texts| == k && forall i :: 0 <= i < k ==> texts[i] == Canonical(items[i])
    requires printed == Canonical(items[k])
    ensures printed in texts <==> exists i :: 0 <= i < k && Alike(items[i], items[k])
  {
    forall i | 0 <= i < k
      ensures texts[i] == printed <==> Alike(items[i], items[k])
    {
      TextDecidesValue(items[i], items[k]);
    }
  }

  /** 1e400 */
  const HUGE: Text := [0x31, 0x65, 0x34, 0x30, 0x30]

  lemma HugeIsNumber(s: Text)
    requires s == HUGE
    ensures IsNumber(s)
  {
    assert Digits(s[1..]) == 0 && IntegerLength(s) == 1;
    var e := s[1..];
    assert FractionLength(e) == 0 && e[0..] == e;
    var d := e[1..];
    assert d == [0x34, 0x30, 0x30] && d[1..] == [0x30, 0x30] && d[2..] == [0x30] && d[3..] == [];
  }

  lemma NumberRead(r: Rules, token: Text)
    requires IsNumber(token) && r.maxNodes >= 1
    ensures ReadStrict(r, token) == Some(Num(r.reprint(token)))
  {
    var tree := Scalar([], token);
    NumberStart(token);
    TreeVerdict(r, tree, []);
    assert Put(tree, []) == token;
  }

  /** A huge number is read as an infinite one, which is printed as `null` and is not `null`; so
      a list of the two is taken to repeat a value. */
  lemma HugeLooksLikeNull(r: Rules)
    requires r.reprint(HUGE) == NULL && r.maxNodes >= 1
    ensures var huge := Num(NULL);
            && IsNumber(HUGE) && ReadStrict(r, HUGE) == Some(huge)
            && huge != Null && Canonical(huge) == Canonical(Null) && Flat(huge) == Flat(Null)
  {
    HugeIsNumber(HUGE);
    NumberRead(r, HUGE);
  }
}
