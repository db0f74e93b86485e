/** What canonical JSON looks like, told on syntax trees rather than by the printer: no white
    space, keys in order, every string and number in its one spelling.
 */
module CanonicalForm {
  import opened Basics
  import opened JsonText
  import opened JsonScan
  import opened CanonicalJson
  import opened JsonMeaning

  // ----- the spelling of strings

  /** A quote, a backslash and the five control characters that have a letter are printed with
      it; a slash is not. */
  lemma LettersPrinted(i: nat, rest: Text)
    requires i < |LETTERS| && LETTERS[i] != '/'
    ensures Escape([MEANT[i]] + rest) == [BACKSLASH, LETTERS[i] as int] + Escape(rest)
  {
    assert LETTERS[0] == '\"' && LETTERS[1] == '\\' && LETTERS[3] == 'b' && LETTERS[4] == 'f';
    assert LETTERS[5] == 'n' && LETTERS[6] == 'r' && LETTERS[7] == 't';
    assert ([MEANT[i]] + rest)[1..] == rest;
  }

  /** A surrogate at the front of `t` that has no partner. */
  ghost predicate Lone(t: Text) {
    && t != [] && 0xD800 <= t[0] < 0xE000
    && !(t[0] < 0xDC00 && |t| > 1 && 0xDC00 <= t[1] < 0xE000)
  }

  /** Other control characters and lone surrogates are printed in small hexadecimal digits. */
  lemma HexPrinted(u: Unit, rest: Text)
    requires (u < 0x20 && u !in MEANT) || Lone([u] + rest)
    ensures Escape([u] + rest) ==
            [BACKSLASH, 'u' as int, Hex(u / 4096, false), Hex(u / 256 % 16, false), Hex(u / 16 % 16, false),
             Hex(u % 16, false)] + Escape(rest)
  {
    var t := [u] + rest;
    assert t[1..] == rest && (rest != [] ==> t[1] == rest[0]);
    assert MEANT[3] == 0x08 && MEANT[4] == 0x0C && MEANT[5] == 0x0A && MEANT[6] == 0x0D && MEANT[7] == 0x09;
    assert !StartsPair(t);
    assert u / 16 / 16 / 16 == u / 4096 && u / 16 / 16 % 16 == u / 256 % 16;
    assert HexText(u) == [Hex(u / 4096, false), Hex(u / 256 % 16, false), Hex(u / 16 % 16, false), Hex(u % 16, false)];
  }

  /** Everything else is printed as it is, a surrogate pair as well. */
  lemma PlainPrinted(u: Unit, rest: Text)
    requires u >= 0x20 && u != '\"' as int && u != '\\' as int && !(0xD800 <= u < 0xE000)
    ensures Escape([u] + rest) == [u] + Escape(rest)
  {
    assert ([u] + rest)[1..] == rest;
  }

  lemma PairPrinted(high: Unit, low: Unit, rest: Text)
    requires 0xD800 <= high < 0xDC00 <= low < 0xE000
    ensures Escape([high, low] + rest) == [high, low] + Escape(rest)
  {
    var t := [high, low] + rest;
    assert t[..2] == [high, low] && t[2..] == rest;
  }

  // ----- the form

  /** Nothing in the tree is left to choice. */
  ghost predicate Tight(reprint: Text -> Text, tree: Tree) {
    && tree.pad == []
    && match tree
       case Scalar(_, token) => IsNumber(token) ==> reprint(token) == token
       case Quoted(_, body, text) => body == Escape(text)
       case EmptyArray(_, inner) => inner == []
       case Array(_, items) => TightItems(reprint, items)
       case EmptyObject(_, inner) => inner == []
       case Object(_, fields) => TightFields(reprint, fields)
  }

  ghost predicate TightItems(reprint: Text -> Text, items: Items) {
    && Tight(reprint, items.tree) && items.after == []
    && (items.MoreItems? ==> TightItems(reprint, items.items))
  }

  ghost predicate TightFields(reprint: Text -> Text, fields: Fields) {
    && TightField(reprint, fields.field)
    && (fields.MoreFields? ==>
          TightFields(reprint, fields.fields) && Before(fields.field.key, fields.fields.field.key))
  }

  ghost predicate TightField(reprint: Text -> Text, f: Field) {
    && f.before == [] && f.mid == [] && f.after == []
    && f.body == Escape(f.key) && Tight(reprint, f.tree)
  }

  // ----- the canonical tree is tight

  lemma TreeTight(r: Rules, v: Json)
    requires Printed(r.reprint, v)
    ensures Tight(r.reprint, TreeOf(v))
    decreases v, 1
  {
    match v
    case Arr(items) =>
      if items != [] {
        ItemsTight(r, v, 0);
      }
    case Obj(members) =>
      if members.Keys != {} {
        KeysAscend(members.Keys);
        FieldsTight(r, v, SortedKeys(members.Keys));
      }
    case _ =>
  }

  lemma ItemsTight(r: Rules, v: Json, i: nat)
    requires v.Arr? && i < |v.items| && Printed(r.reprint, v)
    ensures TightItems(r.reprint, ItemsTree(v, i))
    decreases v, 0, |v.items| - i
  {
    TreeTight(r, v.items[i]);
    if i + 1 < |v.items| {
      ItemsTight(r, v, i + 1);
    }
  }

  lemma FieldsTight(r: Rules, v: Json, keys: seq<Text>)
    requires v.Obj? && keys != [] && Printed(r.reprint, v) && Ascending(keys)
    requires forall k :: k in keys ==> k in v.members
    ensures TightFields(r.reprint, FieldsTree(v, keys))
    decreases v, 0, |keys|
  {
    TreeTight(r, v.members[keys[0]]);
    if |keys| > 1 {
      assert Before(keys[0], keys[1]) && keys[1..][0] == keys[1];
      FieldsTight(r, v, keys[1..]);
      assert FieldsTree(v, keys[1..]).field == FieldTree(v, keys[1]);
    }
  }

  // ----- and no other tree is

  /** How many items there are. */
  ghost function Length(items: Items): nat {
    1 + if items.MoreItems? then Length(items.items) else 0
  }

  lemma {:induction false} ItemsAppended(r: Rules, items: Items, before: seq<Json>)
    ensures var all := ItemsOf(r, items, before);
            && |all| == |before| + Length(items) && all[..|before|] == before
            && all[|before|] == ValueOf(r, items.tree)
    decreases items
  {
    if items.MoreItems? {
      var next := before + [ValueOf(r, items.tree)];
      ItemsAppended(r, items.items, next);
      var all := ItemsOf(r, items, before);
      assert all[..|before|] == all[..|next|][..|before|] == before;
      assert all[|before|] == all[..|next|][|before|];
    }
  }

  ghost function KeysOf(fields: Fields): seq<Text> {
    [fields.field.key] + if fields.MoreFields? then KeysOf(fields.fields) else []
  }

  /** Every field behind the front has a greater key. */
  lemma {:induction false} KeysRise(reprint: Text -> Text, fields: Fields)
    requires TightFields(reprint, fields)
    ensures Ascending(KeysOf(fields))
  {
    if fields.MoreFields? {
      var more := KeysOf(fields.fields);
      KeysRise(reprint, fields.fields);
      var keys := [fields.field.key] + more;
      forall i, j | 0 <= i < j < |keys|
        ensures Before(keys[i], keys[j])
      {
        if i == 0 && j > 1 {
          BeforeTransitive(keys[0], more[0], more[j - 1]);
        }
      }
    }
  }

  /** The members are the fields over those before; no key behind the front is the front's. */
  lemma {:induction false} MembersKept(r: Rules, fields: Fields, before: map<Text, Json>, k: Text)
    requires k in before && k !in KeysOf(fields)
    ensures k in MembersOf(r, fields, before) && MembersOf(r, fields, before)[k] == before[k]
    decreases fields
  {
    if fields.MoreFields? {
      MembersKept(r, fields.fields, before[fields.field.key := ValueOf(r, fields.field.tree)], k);
    }
  }

  lemma {:induction false} MembersKeys(r: Rules, fields: Fields, before: map<Text, Json>)
    ensures MembersOf(r, fields, before).Keys == before.Keys + (set k | k in KeysOf(fields))
    decreases fields
  {
    if fields.MoreFields? {
      MembersKeys(r, fields.fields, before[fields.field.key := ValueOf(r, fields.field.tree)]);
    }
  }

  /** Every field's value is the member under its key. */
  ghost predicate Holds(r: Rules, fields: Fields, members: map<Text, Json>) {
    && fields.field.key in members && members[fields.field.key] == ValueOf(r, fields.field.tree)
    && (fields.MoreFields? ==> Holds(r, fields.fields, members))
  }

  lemma FirstApart(key: Text, more: seq<Text>)
    requires Ascending([key] + more)
    ensures Ascending(more) && key !in more
  {
    var keys := [key] + more;
    AscendingDistinct(keys);
    assert forall i :: 0 <= i < |more| ==> more[i] == keys[i + 1] != keys[0];
    forall i, j | 0 <= i < j < |more|
      ensures Before(more[i], more[j])
    {
      assert Before(keys[i + 1], keys[j + 1]);
    }
  }

  lemma {:induction false} MembersHold(r: Rules, fields: Fields, before: map<Text, Json>)
    requires Ascending(KeysOf(fields))
    ensures Holds(r, fields, MembersOf(r, fields, before))
    decreases fields
  {
    if fields.MoreFields? {
      var key, value := fields.field.key, ValueOf(r, fields.field.tree);
      FirstApart(key, KeysOf(fields.fields));
      MembersKept(r, fields.fields, before[key := value], key);
      MembersHold(r, fields.fields, before[key := value]);
    }
  }

  lemma FieldsBack(r: Rules, fields: Fields, v: Json)
    requires v.Obj? && Holds(r, fields, v.members)
    requires TightFields(r.reprint, fields) && WellFormedFields(fields)
    ensures forall k :: k in KeysOf(fields) ==> k in v.members
    ensures FieldsTree(v, KeysOf(fields)) == fields
    decreases fields, 0
  {
    TreeBack(r, fields.field.tree);
    if fields.MoreFields? {
      FieldsBack(r, fields.fields, v);
      assert KeysOf(fields)[1..] == KeysOf(fields.fields);
    }
  }

  lemma ObjectBack(r: Rules, fields: Fields, v: Json)
    requires TightFields(r.reprint, fields) && WellFormedFields(fields)
    requires v == Obj(MembersOf(r, fields, map[]))
    ensures TreeOf(v) == Object([], fields)
    decreases fields, 1
  {
    var keys := KeysOf(fields);
    KeysRise(r.reprint, fields);
    MembersHold(r, fields, map[]);
    MembersKeys(r, fields, map[]);
    assert fields.field.key in v.members.Keys;
    OneOrder(keys, v.members.Keys);
    FieldsBack(r, fields, v);
  }

  lemma ItemsStep(v: Json, i: nat, tree: Tree)
    requires v.Arr? && i < |v.items| && TreeOf(v.items[i]) == tree
    ensures ItemsTree(v, i) ==
            if i + 1 == |v.items| then LastItem(tree, []) else MoreItems(tree, [], ItemsTree(v, i + 1))
  {
  }

  lemma ItemsBack(r: Rules, items: Items, before: seq<Json>, v: Json)
    requires TightItems(r.reprint, items) && WellFormedItems(items)
    requires v == Arr(ItemsOf(r, items, before))
    ensures |before| < |v.items| && ItemsTree(v, |before|) == items
    decreases items, 0
  {
    var value := ValueOf(r, items.tree);
    ItemsAppended(r, items, before);
    TreeBack(r, items.tree);
    ItemsStep(v, |before|, items.tree);
    if items.MoreItems? {
      var next := before + [value];
      assert v == Arr(ItemsOf(r, items.items, next));
      ItemsBack(r, items.items, next, v);
      assert |next| == |before| + 1;
    }
  }

  /** A tight tree is the canonical tree of its value. */
  lemma TreeBack(r: Rules, tree: Tree)
    requires Tight(r.reprint, tree) && WellFormed(tree)
    ensures TreeOf(ValueOf(r, tree)) == tree
    decreases tree, 2
  {
    match tree
    case Array(_, items) => ItemsBack(r, items, [], ValueOf(r, tree));
    case Object(_, fields) => ObjectBack(r, fields, ValueOf(r, tree));
    case _ =>
  }

  /** `tree` spells `text`, denotes `v` and leaves nothing to choice. */
  ghost predicate Spells(r: Rules, tree: Tree, text: Text, v: Json) {
    Put(tree, []) == text && WellFormed(tree) && Tight(r.reprint, tree) && ValueOf(r, tree) == v
  }

  /** The canonical text of a value is the one text of it without white space, with its keys in
      order and every string and number in its one spelling. */
  lemma CanonicalExactly(r: Rules, v: Json, text: Text)
    requires Printed(r.reprint, v)
    ensures text == Canonical(v) <==> exists tree :: Spells(r, tree, text, v)
  {
    TreeText(v, []);
    assert Canonical(v) + [] == Canonical(v);
    if text == Canonical(v) {
      TreeDenotes(r, v);
      TreeTight(r, v);
      assert Spells(r, TreeOf(v), text, v);
    }
    if tree :| Spells(r, tree, text, v) {
      TreeBack(r, tree);
    }
  }
}
