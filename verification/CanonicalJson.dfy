/** Canonical JSON: objects printed with their keys in order, no white space. The printed text
    decides the value, and the strict scanner reads it back.
 */
module CanonicalJson {
  import opened Basics
  import opened JsonText
  import opened JsonScan

  // ----- the order of keys

  /** Strings in the order of their code units. */
  predicate Before(a: Text, b: Text) {
    b != [] && (a == [] || a[0] < b[0] || (a[0] == b[0] && Before(a[1..], b[1..])))
  }

  lemma {:induction false} BeforeTotal(a: Text, b: Text)
    ensures a == b || Before(a, b) || Before(b, a)
    ensures !(Before(a, b) && Before(b, a)) && !Before(a, a)
  {
    if a != [] && b != [] {
      BeforeTotal(a[1..], b[1..]);
      BeforeTotal(a[1..], a[1..]);
      if a[0] == b[0] && a[1..] == b[1..] {
        assert a == [a[0]] + a[1..] == [b[0]] + b[1..] == b;
      }
    } else if a != [] {
      BeforeTotal(a[1..], a[1..]);
    }
  }

  lemma {:induction false} BeforeTransitive(a: Text, b: Text, c: Text)
    requires Before(a, b) && Before(b, c)
    ensures Before(a, c)
  {
    if a != [] && a[0] == b[0] == c[0] {
      BeforeTransitive(a[1..], b[1..], c[1..]);
    }
  }

  predicate IsLeast(k: Text, ks: set<Text>) {
    k in ks && forall j :: j in ks && j != k ==> Before(k, j)
  }

  lemma {:induction false} LeastExists(ks: set<Text>) returns (k: Text)
    requires ks != {}
    ensures IsLeast(k, ks)
  {
    k :| k in ks;
    if ks != {k} {
      var rest := ks - {k};
      assert ks == rest + {k};
      var j := LeastExists(rest);
      BeforeTotal(j, k);
      if Before(j, k) {
        k := j;
      } else {
        forall i | i in rest && i != j
          ensures Before(k, i)
        {
          BeforeTransitive(k, j, i);
        }
      }
    }
  }

  lemma LeastUnique(ks: set<Text>, a: Text, b: Text)
    requires IsLeast(a, ks) && IsLeast(b, ks)
    ensures a == b
  {
    BeforeTotal(a, b);
  }

  lemma HasLeast(ks: set<Text>)
    requires ks != {}
    ensures exists k :: k in ks && IsLeast(k, ks)
    ensures forall a, b :: IsLeast(a, ks) && IsLeast(b, ks) ==> a == b
  {
    var k := LeastExists(ks);
    forall a, b | IsLeast(a, ks) && IsLeast(b, ks)
      ensures a == b
    {
      LeastUnique(ks, a, b);
    }
  }

  function Least(ks: set<Text>): (k: Text)
    requires ks != {}
    ensures IsLeast(k, ks)
  {
    HasLeast(ks);
    var k :| k in ks && IsLeast(k, ks);
    k
  }

  function SortedKeys(ks: set<Text>): (keys: seq<Text>)
    ensures forall k :: k in keys <==> k in ks
    ensures |keys| == |ks|
  {
    if ks == {} then [] else [Least(ks)] + SortedKeys(ks - {Least(ks)})
  }

  ghost predicate Ascending(keys: seq<Text>) {
    forall i, j :: 0 <= i < j < |keys| ==> Before(keys[i], keys[j])
  }

  lemma {:induction false} KeysAscend(ks: set<Text>)
    ensures Ascending(SortedKeys(ks))
  {
    if ks == {} {
    } else {
      var k := Least(ks);
      var more := SortedKeys(ks - {k});
      KeysAscend(ks - {k});
      forall j | 0 <= j < |more|
        ensures Before(k, more[j])
      {
        assert more[j] in more;
      }
    }
  }

  /** However the keys are sorted, this is the order. */
  lemma {:induction false} OneOrder(keys: seq<Text>, ks: set<Text>)
    requires Ascending(keys) && forall k :: k in keys <==> k in ks
    ensures keys == SortedKeys(ks)
  {
    if keys != [] {
      assert keys[0] in ks;
      forall j | j in ks && j != keys[0]
        ensures Before(keys[0], j)
      {
        assert j in keys;
      }
      LeastUnique(ks, keys[0], Least(ks));
      BeforeTotal(keys[0], keys[0]);
      assert keys[0] !in keys[1..];
      assert keys == [keys[0]] + keys[1..];
      OneOrder(keys[1..], ks - {keys[0]});
    } else {
      assert ks == {};
    }
  }

  // ----- printing

  function Quote(t: Text): Text {
    [QUOTE] + Escape(t) + [QUOTE]
  }

  /** The canonical text of a value. */
  function Canonical(v: Json): Text
    decreases v, 1
  {
    match v
    case Null => NULL
    case Bool(b) => if b then TRUE else FALSE
    case Num(t) => t
    case Str(t) => Quote(t)
    case Arr(items) => [OPEN_ARRAY] + CanonicalItems(v, 0) + [CLOSE_ARRAY]
    case Obj(members) => [OPEN_OBJECT] + CanonicalMembers(v, SortedKeys(members.Keys)) + [CLOSE_OBJECT]
  }

  /** The items from the `i`th on. */
  function CanonicalItems(v: Json, i: nat): Text
    requires v.Arr? && i <= |v.items|
    decreases v, 0, |v.items| - i
  {
    if i == |v.items| then []
    else if i + 1 == |v.items| then Canonical(v.items[i])
    else Canonical(v.items[i]) + [COMMA] + CanonicalItems(v, i + 1)
  }

  function CanonicalMembers(v: Json, keys: seq<Text>): Text
    requires v.Obj? && forall k :: k in keys ==> k in v.members
    decreases v, 0, |keys|
  {
    if keys == [] then []
    else
      var first := Quote(keys[0]) + [COLON] + Canonical(v.members[keys[0]]);
      if |keys| == 1 then first else first + [COMMA] + CanonicalMembers(v, keys[1..])
  }

  /** The tree of the canonical text. */
  ghost function TreeOf(v: Json): Tree
    decreases v, 1
  {
    match v
    case Null => Scalar([], NULL)
    case Bool(b) => Scalar([], if b then TRUE else FALSE)
    case Num(t) => Scalar([], t)
    case Str(t) => Quoted([], Escape(t), t)
    case Arr(items) => if items == [] then EmptyArray([], []) else Array([], ItemsTree(v, 0))
    case Obj(members) =>
      if members.Keys == {} then EmptyObject([], []) else Object([], FieldsTree(v, SortedKeys(members.Keys)))
  }

  ghost function ItemsTree(v: Json, i: nat): Items
    requires v.Arr? && i < |v.items|
    decreases v, 0, |v.items| - i
  {
    if i + 1 == |v.items| then LastItem(TreeOf(v.items[i]), [])
      else MoreItems(TreeOf(v.items[i]), [], ItemsTree(v, i + 1))
  }

  ghost function FieldTree(v: Json, k: Text): Field
    requires v.Obj? && k in v.members
    decreases v, 0, 0
  {
    Field([], Escape(k), k, [], TreeOf(v.members[k]), [])
  }

  ghost function FieldsTree(v: Json, keys: seq<Text>): Fields
    requires v.Obj? && keys != [] && forall k :: k in keys ==> k in v.members
    decreases v, 0, |keys|
  {
    if |keys| == 1 then LastField(FieldTree(v, keys[0]))
      else MoreFields(FieldTree(v, keys[0]), FieldsTree(v, keys[1..]))
  }

  // ----- the tree spells the canonical text

  lemma QuoteThen(t: Text, rest: Text)
    ensures PutString(Escape(t), rest) == Quote(t) + rest
  {
  }

  lemma Regroup(a: Text, b: Text, c: Text, d: Text)
    ensures a + (b + (c + d)) == a + b + c + d
  {
  }

  lemma TreeText(v: Json, rest: Text)
    ensures Put(TreeOf(v), rest) == Canonical(v) + rest
    decreases v, 2
  {
    match v
    case Null =>
    case Bool(b) =>
    case Num(t) =>
    case Str(t) => QuoteThen(t, rest);
    case Arr(_) => ArrayText(v, rest);
    case Obj(_) => ObjectText(v, rest);
  }

  lemma ArrayText(v: Json, rest: Text)
    requires v.Arr?
    ensures Put(TreeOf(v), rest) == Canonical(v) + rest
    decreases v, 0, |v.items| + 1
  {
    if v.items == [] {
      assert Put(TreeOf(v), rest) == [] + ([OPEN_ARRAY] + ([] + ([CLOSE_ARRAY] + rest)));
    } else {
      ItemsTreeText(v, 0, rest);
      assert Put(TreeOf(v), rest) == [] + ([OPEN_ARRAY] + PutItems(ItemsTree(v, 0), rest));
    }
  }

  lemma ObjectText(v: Json, rest: Text)
    requires v.Obj?
    ensures Put(TreeOf(v), rest) == Canonical(v) + rest
    decreases v, 1, 0
  {
    var keys := SortedKeys(v.members.Keys);
    if keys == [] {
      assert v.members.Keys == {};
      assert Put(TreeOf(v), rest) == [] + ([OPEN_OBJECT] + ([] + ([CLOSE_OBJECT] + rest)));
    } else {
      FieldsTreeText(v, keys, rest);
      assert Put(TreeOf(v), rest) == [] + ([OPEN_OBJECT] + PutFields(FieldsTree(v, keys), rest));
    }
  }

  lemma ItemsTreeText(v: Json, i: nat, rest: Text)
    requires v.Arr? && i < |v.items|
    ensures PutItems(ItemsTree(v, i), rest) == CanonicalItems(v, i) + ([CLOSE_ARRAY] + rest)
    decreases v, 0, |v.items| - i
  {
    var stop := [CLOSE_ARRAY] + rest;
    if i + 1 == |v.items| {
      TreeText(v.items[i], [] + stop);
      assert [] + stop == stop;
    } else {
      var tail := PutItems(ItemsTree(v, i + 1), rest);
      ItemsTreeText(v, i + 1, rest);
      TreeText(v.items[i], [] + ([COMMA] + tail));
      Regroup(Canonical(v.items[i]), [COMMA], CanonicalItems(v, i + 1), stop);
      assert [] + ([COMMA] + tail) == [COMMA] + tail;
    }
  }

  lemma FieldText(v: Json, k: Text, rest: Text)
    requires v.Obj? && k in v.members
    ensures PutField(FieldTree(v, k), rest) == Quote(k) + [COLON] + Canonical(v.members[k]) + rest
    decreases v, 0, 0
  {
    var inside := Put(TreeOf(v.members[k]), [] + rest);
    assert [] + rest == rest;
    TreeText(v.members[k], rest);
    QuoteThen(k, [] + ([COLON] + inside));
    assert [] + ([COLON] + inside) == [COLON] + inside;
    assert PutField(FieldTree(v, k), rest) == [] + PutString(Escape(k), [] + ([COLON] + inside));
    Regroup(Quote(k), [COLON], Canonical(v.members[k]), rest);
  }

  lemma FieldsTreeText(v: Json, keys: seq<Text>, rest: Text)
    requires v.Obj? && keys != [] && forall k :: k in keys ==> k in v.members
    ensures PutFields(FieldsTree(v, keys), rest) == CanonicalMembers(v, keys) + ([CLOSE_OBJECT] + rest)
    decreases v, 0, |keys|
  {
    var stop := [CLOSE_OBJECT] + rest;
    if |keys| == 1 {
      FieldText(v, keys[0], stop);
    } else {
      var tail := PutFields(FieldsTree(v, keys[1..]), rest);
      var first := Quote(keys[0]) + [COLON] + Canonical(v.members[keys[0]]);
      FieldText(v, keys[0], [COMMA] + tail);
      FieldsTreeText(v, keys[1..], rest);
      Regroup(first, [COMMA], CanonicalMembers(v, keys[1..]), stop);
    }
  }

  // ----- the tree denotes the value

  /** Every number in the value is a number's text, printed as `reprint` prints it. */
  ghost predicate Printed(reprint: Text -> Text, v: Json) {
    match v
    case Num(t) => IsNumber(t) && reprint(t) == t
    case Arr(items) => forall i :: 0 <= i < |items| ==> Printed(reprint, items[i])
    case Obj(members) => forall k :: k in members ==> Printed(reprint, members[k])
    case _ => true
  }

  ghost predicate Faithful(r: Rules, v: Json) {
    WellFormed(TreeOf(v)) && Unrepeated(TreeOf(v)) && ValueOf(r, TreeOf(v)) == v
  }

  lemma TreeDenotes(r: Rules, v: Json)
    requires Printed(r.reprint, v)
    ensures Faithful(r, v)
    decreases v, 3
  {
    match v
    case Arr(_) => ArrayDenotes(r, v);
    case Obj(_) => ObjectDenotes(r, v);
    case _ => LeafDenotes(r, v);
  }

  lemma LeafDenotes(r: Rules, v: Json)
    requires Printed(r.reprint, v) && !v.Arr? && !v.Obj?
    ensures Faithful(r, v)
  {
    if v.Num? {
      NumberStart(v.text);
    } else if v.Str? {
      EscapeRoundTrip(v.text);
    }
  }

  lemma ArrayDenotes(r: Rules, v: Json)
    requires Printed(r.reprint, v) && v.Arr?
    ensures Faithful(r, v)
    decreases v, 2
  {
    if v.items != [] {
      ItemsTreeDenotes(r, v, 0);
      assert v.items[..0] == [];
    }
  }

  lemma ObjectDenotes(r: Rules, v: Json)
    requires Printed(r.reprint, v) && v.Obj?
    ensures Faithful(r, v)
    decreases v, 2
  {
    if v.members.Keys != {} {
      var keys := SortedKeys(v.members.Keys);
      KeysAscend(v.members.Keys);
      AscendingDistinct(keys);
      KeyedDenotes(r, v, keys);
    } else {
      assert v.members == map[];
    }
  }

  lemma KeyedDenotes(r: Rules, v: Json, keys: seq<Text>)
    requires Printed(r.reprint, v) && v.Obj? && keys != [] && Distinct(keys)
    requires forall k :: k in keys <==> k in v.members
    ensures WellFormedFields(FieldsTree(v, keys)) && FieldsUnrepeated(FieldsTree(v, keys), {})
    ensures MembersOf(r, FieldsTree(v, keys), map[]) == v.members
    decreases v, 1
  {
    FieldsTreeShape(r, v, keys, {});
    FieldsTreeMembers(r, v, keys, map[]);
    AllMembers(v.members, keys);
  }

  lemma AllMembers(members: map<Text, Json>, keys: seq<Text>)
    requires forall k :: k in keys <==> k in members
    ensures map[] + (map k | k in keys :: members[k]) == members
  {
  }

  lemma ItemsTreeDenotes(r: Rules, v: Json, i: nat)
    requires v.Arr? && i < |v.items| && Printed(r.reprint, v)
    ensures WellFormedItems(ItemsTree(v, i)) && ItemsUnrepeated(ItemsTree(v, i))
    ensures ItemsOf(r, ItemsTree(v, i), v.items[..i]) == v.items
    decreases v, 0, |v.items| - i
  {
    TreeDenotes(r, v.items[i]);
    assert v.items[..i + 1] == v.items[..i] + [v.items[i]];
    if i + 1 < |v.items| {
      ItemsTreeDenotes(r, v, i + 1);
    } else {
      assert v.items[..i + 1] == v.items;
    }
  }

  ghost predicate Distinct(keys: seq<Text>) {
    forall i, j :: 0 <= i < j < |keys| ==> keys[i] != keys[j]
  }

  lemma AscendingDistinct(keys: seq<Text>)
    requires Ascending(keys)
    ensures Distinct(keys)
  {
    forall i, j | 0 <= i < j < |keys|
      ensures keys[i] != keys[j]
    {
      BeforeTotal(keys[i], keys[i]);
    }
  }

  lemma FieldTreeDenotes(r: Rules, v: Json, k: Text)
    requires v.Obj? && Printed(r.reprint, v) && k in v.members
    ensures WellFormedField(FieldTree(v, k)) && Unrepeated(FieldTree(v, k).tree)
    ensures ValueOf(r, FieldTree(v, k).tree) == v.members[k]
    decreases v, 0, 0
  {
    TreeDenotes(r, v.members[k]);
    EscapeRoundTrip(k);
  }

  lemma FieldsTreeShape(r: Rules, v: Json, keys: seq<Text>, seen: set<Text>)
    requires v.Obj? && keys != [] && Printed(r.reprint, v) && Distinct(keys)
    requires forall k :: k in keys ==> k in v.members && k !in seen
    ensures WellFormedFields(FieldsTree(v, keys)) && FieldsUnrepeated(FieldsTree(v, keys), seen)
    decreases v, 0, |keys|
  {
    FieldTreeDenotes(r, v, keys[0]);
    if |keys| > 1 {
      FieldsTreeShape(r, v, keys[1..], seen + {keys[0]});
    }
  }

  lemma FieldsTreeMembers(r: Rules, v: Json, keys: seq<Text>, before: map<Text, Json>)
    requires v.Obj? && keys != [] && Printed(r.reprint, v)
    requires forall k :: k in keys ==> k in v.members
    ensures MembersOf(r, FieldsTree(v, keys), before) == before + (map k | k in keys :: v.members[k])
    decreases v, 0, |keys|
  {
    var k := keys[0];
    FieldTreeDenotes(r, v, k);
    MapCons(v.members, keys, before);
    if |keys| > 1 {
      FieldsTreeMembers(r, v, keys[1..], before[k := v.members[k]]);
    }
  }

  lemma MapCons(members: map<Text, Json>, keys: seq<Text>, before: map<Text, Json>)
    requires keys != [] && forall k :: k in keys ==> k in members
    ensures before[keys[0] := members[keys[0]]] + (map k | k in keys[1..] :: members[k]) ==
            before + (map k | k in keys :: members[k])
    ensures |keys| == 1 ==> before[keys[0] := members[keys[0]]] == before + (map k | k in keys :: members[k])
  {
    assert keys == [keys[0]] + keys[1..];
  }

  // ----- reading back

  /** How deep the value nests, and how many values it holds, itself included. */
  ghost function Depth(v: Json): nat {
    Height(TreeOf(v))
  }

  ghost function Count(v: Json): nat {
    Size(TreeOf(v))
  }

  ghost predicate Within(r: Rules, v: Json) {
    Depth(v) <= r.maxDepth && Count(v) <= r.maxNodes
  }

  /** The canonical text is accepted exactly when the value is within the limits, and then it is
      read back as that value. */
  lemma ReadsBack(r: Rules, v: Json, tail: Text)
    requires Printed(r.reprint, v) && Blank(tail)
    ensures ReadStrict(r, Canonical(v) + tail) == if Within(r, v) then Some(v) else None
  {
    TreeDenotes(r, v);
    TreeText(v, tail);
    TreeVerdict(r, TreeOf(v), tail);
  }

  function Same(t: Text): Text {
    t
  }

  /** Two values whose numbers are all finite print alike only if they are equal. */
  lemma FiniteTextDecides(v: Json, w: Json)
    requires Printed(Same, v) && Printed(Same, w)
    ensures Canonical(v) == Canonical(w) <==> v == w
  {
    if Canonical(v) == Canonical(w) {
      var r := Rules(Max(Depth(v), Depth(w)), Max(Count(v), Count(w)), Same);
      ReadsBack(r, v, []);
      ReadsBack(r, w, []);
    }
  }

  /** The bytes of the text in UTF-8. */
  function Utf8Size(t: Text): nat {
    if t == [] then 0
    else if StartsPair(t) then 4 + Utf8Size(t[2..])
    else (if t[0] < 0x80 then 1 else if t[0] < 0x800 then 2 else 3) + Utf8Size(t[1..])
  }

  const MAX_DEPTH: nat := 64
  const MAX_NODES: nat := 8192

  function Limits(reprint: Text -> Text): Rules {
    Rules(MAX_DEPTH, MAX_NODES, reprint)
  }

  function ParseStrict(reprint: Text -> Text, text: Text, maxBytes: nat): Option<Json> {
    if text == [] || Utf8Size(text) > maxBytes then None else ReadStrict(Limits(reprint), text)
  }

  function ParseCanonical(reprint: Text -> Text, text: Text, maxBytes: nat): Option<Json> {
    match ParseStrict(reprint, text, maxBytes)
    case None => None
    case Some(v) => if Canonical(v) + [NEWLINE] == text then Some(v) else None
  }

  /** A canonical document has one text: a value is read from its own canonical line within the
      limits, and from nothing else. */
  lemma CanonicalDecides(reprint: Text -> Text, text: Text, maxBytes: nat, v: Json)
    requires Printed(reprint, v)
    ensures ParseCanonical(reprint, text, maxBytes) == Some(v) <==>
            text == Canonical(v) + [NEWLINE] && Utf8Size(text) <= maxBytes && Within(Limits(reprint), v)
  {
    ReadsBack(Limits(reprint), v, [NEWLINE]);
  }
}
