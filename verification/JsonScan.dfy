/** The strict JSON scanner as a function of the text left to read, and the grammar it decides.

    A syntax tree records a text in full, white space included. The scanner accepts exactly the
    texts of trees that repeat no key within an object and stay within the limits on nesting
    and on the number of values.
 */
module JsonScan {
  import opened Basics
  import opened JsonText

  datatype Json =
    | Null
    | Bool(value: bool)
    | Num(text: Text)
    | Str(text: Text)
    | Arr(items: seq<Json>)
    | Obj(members: map<Text, Json>)

  /** The limits, and the text in which the number that a token denotes is printed again. */
  datatype Rules = Rules(maxDepth: nat, maxNodes: nat, reprint: Text -> Text)

  // ----- scanning

  datatype Lexed = Bad | Read(text: Text, rest: Text)

  datatype Scanned = Failed | Got(value: Json, rest: Text, nodes: nat)

  function ScanString(s: Text): (r: Lexed)
    ensures r.Read? ==> |r.rest| < |s|
  {
    if s == [] || s[0] != QUOTE then Bad
    else
      match BodyEnd(s[1..])
      case None => Bad
      case Some(n) =>
        match Decode(s[1..][..n])
        case None => Bad
        case Some(t) => Read(t, s[1..][n + 1..])
  }

  function ScalarValue(r: Rules, token: Text): Json {
    if token == TRUE then Bool(true)
    else if token == FALSE then Bool(false)
    else if token == NULL then Null
    else Num(r.reprint(token))
  }

  function ScanScalar(r: Rules, s: Text, nodes: nat): (g: Scanned)
    ensures g.Got? ==> |g.rest| < |s|
  {
    var n := ScalarLength(s);
    if n == 0 then Failed else Got(ScalarValue(r, s[..n]), s[n..], nodes)
  }

  predicate StartsWith(s: Text, u: Unit) {
    s != [] && s[0] == u
  }

  function ScanValue(r: Rules, s: Text, depth: nat, nodes: nat): (g: Scanned)
    ensures g.Got? ==> |g.rest| < |s|
    decreases |s|, 1
  {
    if depth > r.maxDepth || nodes + 1 > r.maxNodes then Failed
    else ScanBlack(r, SkipSpace(s), depth, nodes + 1)
  }

  /** The value that starts right here. */
  function ScanBlack(r: Rules, s: Text, depth: nat, nodes: nat): (g: Scanned)
    ensures g.Got? ==> |g.rest| < |s|
    decreases |s|, 0
  {
    if StartsWith(s, OPEN_OBJECT) then
      var t := SkipSpace(s[1..]);
      if StartsWith(t, CLOSE_OBJECT) then Got(Obj(map[]), t[1..], nodes)
      else ScanFields(r, t, map[], depth, nodes)
    else if StartsWith(s, OPEN_ARRAY) then
      var t := SkipSpace(s[1..]);
      if StartsWith(t, CLOSE_ARRAY) then Got(Arr([]), t[1..], nodes)
      else ScanItems(r, t, [], depth, nodes)
    else if StartsWith(s, QUOTE) then
      match ScanString(s)
      case Bad => Failed
      case Read(text, rest) => Got(Str(text), rest, nodes)
    else ScanScalar(r, s, nodes)
  }

  function ScanItems(r: Rules, s: Text, items: seq<Json>, depth: nat, nodes: nat): (g: Scanned)
    ensures g.Got? ==> |g.rest| < |s|
    decreases |s|, 2
  {
    AfterItem(r, ScanValue(r, s, depth + 1, nodes), items, depth)
  }

  /** What scanning does after the item `g`. */
  function AfterItem(r: Rules, g: Scanned, items: seq<Json>, depth: nat): (h: Scanned)
    ensures h.Got? ==> g.Got? && |h.rest| < |g.rest|
    decreases Left(g), 1
  {
    match g
    case Failed => Failed
    case Got(v, rest, n) =>
      var t := SkipSpace(rest);
      if StartsWith(t, CLOSE_ARRAY) then Got(Arr(items + [v]), t[1..], n)
      else if StartsWith(t, COMMA) then ScanItems(r, t[1..], items + [v], depth, n)
      else Failed
  }

  function Left(g: Scanned): nat {
    if g.Got? then |g.rest| else 0
  }

  function ScanFields(r: Rules, s: Text, members: map<Text, Json>, depth: nat, nodes: nat): (g: Scanned)
    ensures g.Got? ==> |g.rest| < |s|
    decreases |s|, 2
  {
    match ScanString(SkipSpace(s))
    case Bad => Failed
    case Read(key, afterKey) =>
      var t := SkipSpace(afterKey);
      if key in members || !StartsWith(t, COLON) then Failed
      else AfterMember(r, ScanValue(r, t[1..], depth + 1, nodes), members, key, depth)
  }

  /** What scanning does after the value `g` of the member `key`. */
  function AfterMember(r: Rules, g: Scanned, members: map<Text, Json>, key: Text, depth: nat): (h: Scanned)
    ensures h.Got? ==> g.Got? && |h.rest| < |g.rest|
    decreases Left(g), 1
  {
    match g
    case Failed => Failed
    case Got(v, rest, n) =>
      var u := SkipSpace(rest);
      if StartsWith(u, CLOSE_OBJECT) then Got(Obj(members[key := v]), u[1..], n)
      else if StartsWith(u, COMMA) then ScanFields(r, u[1..], members[key := v], depth, n)
      else Failed
  }

  /** The whole text: one value and white space. */
  function ReadStrict(r: Rules, text: Text): Option<Json> {
    match ScanValue(r, text, 0, 0)
    case Failed => None
    case Got(v, rest, _) => if SkipSpace(rest) == [] then Some(v) else None
  }

  // ----- syntax trees

  datatype Tree =
    | Scalar(pad: Text, token: Text)
    | Quoted(pad: Text, body: Text, text: Text)
    | EmptyArray(pad: Text, inner: Text)
    | Array(pad: Text, items: Items)
    | EmptyObject(pad: Text, inner: Text)
    | Object(pad: Text, fields: Fields)

  datatype Items = LastItem(tree: Tree, after: Text) | MoreItems(tree: Tree, after: Text, items: Items)

  datatype Fields = LastField(field: Field) | MoreFields(field: Field, fields: Fields)

  datatype Field = Field(before: Text, body: Text, key: Text, mid: Text, tree: Tree, after: Text)

  /** The text of a tree, and then `rest`. */
  function Put(tree: Tree, rest: Text): Text {
    match tree
    case Scalar(pad, token) => pad + (token + rest)
    case Quoted(pad, body, _) => pad + PutString(body, rest)
    case EmptyArray(pad, inner) => pad + ([OPEN_ARRAY] + (inner + ([CLOSE_ARRAY] + rest)))
    case Array(pad, items) => pad + ([OPEN_ARRAY] + PutItems(items, rest))
    case EmptyObject(pad, inner) => pad + ([OPEN_OBJECT] + (inner + ([CLOSE_OBJECT] + rest)))
    case Object(pad, fields) => pad + ([OPEN_OBJECT] + PutFields(fields, rest))
  }

  function PutString(body: Text, rest: Text): Text {
    [QUOTE] + (body + ([QUOTE] + rest))
  }

  function PutItems(items: Items, rest: Text): Text {
    match items
    case LastItem(tree, after) => Put(tree, after + ([CLOSE_ARRAY] + rest))
    case MoreItems(tree, after, more) => Put(tree, after + ([COMMA] + PutItems(more, rest)))
  }

  function PutFields(fields: Fields, rest: Text): Text {
    match fields
    case LastField(f) => PutField(f, [CLOSE_OBJECT] + rest)
    case MoreFields(f, more) => PutField(f, [COMMA] + PutFields(more, rest))
  }

  function PutField(f: Field, rest: Text): Text {
    f.before + PutString(f.body, f.mid + ([COLON] + Put(f.tree, f.after + rest)))
  }

  /** `body` can stand between quotes, and denotes `text`. */
  predicate Denotes(body: Text, text: Text) {
    Closed(body) && Decode(body) == Some(text)
  }

  predicate WellFormed(tree: Tree) {
    && Blank(tree.pad)
    && match tree
       case Scalar(_, token) => IsScalar(token)
       case Quoted(_, body, text) => Denotes(body, text)
       case EmptyArray(_, inner) => Blank(inner)
       case Array(_, items) => WellFormedItems(items)
       case EmptyObject(_, inner) => Blank(inner)
       case Object(_, fields) => WellFormedFields(fields)
  }

  predicate WellFormedItems(items: Items) {
    && WellFormed(items.tree) && Blank(items.after)
    && (items.MoreItems? ==> WellFormedItems(items.items))
  }

  predicate WellFormedFields(fields: Fields) {
    && WellFormedField(fields.field)
    && (fields.MoreFields? ==> WellFormedFields(fields.fields))
  }

  predicate WellFormedField(f: Field) {
    && Blank(f.before) && Denotes(f.body, f.key) && Blank(f.mid) && WellFormed(f.tree) && Blank(f.after)
  }

  /** The value a tree denotes. */
  function ValueOf(r: Rules, tree: Tree): Json {
    match tree
    case Scalar(_, token) => ScalarValue(r, token)
    case Quoted(_, _, text) => Str(text)
    case EmptyArray(_, _) => Arr([])
    case Array(_, items) => Arr(ItemsOf(r, items, []))
    case EmptyObject(_, _) => Obj(map[])
    case Object(_, fields) => Obj(MembersOf(r, fields, map[]))
  }

  function ItemsOf(r: Rules, items: Items, before: seq<Json>): seq<Json> {
    match items
    case LastItem(tree, _) => before + [ValueOf(r, tree)]
    case MoreItems(tree, _, more) => ItemsOf(r, more, before + [ValueOf(r, tree)])
  }

  function MembersOf(r: Rules, fields: Fields, before: map<Text, Json>): map<Text, Json> {
    match fields
    case LastField(f) => before[f.key := ValueOf(r, f.tree)]
    case MoreFields(f, more) => MembersOf(r, more, before[f.key := ValueOf(r, f.tree)])
  }

  // ----- limits and repeated keys

  function Max(a: nat, b: nat): nat {
    if a < b then b else a
  }

  function Height(tree: Tree): nat {
    match tree
    case Array(_, items) => 1 + ItemsHeight(items)
    case Object(_, fields) => 1 + FieldsHeight(fields)
    case _ => 0
  }

  function ItemsHeight(items: Items): nat {
    if items.LastItem? then Height(items.tree) else Max(Height(items.tree), ItemsHeight(items.items))
  }

  function FieldsHeight(fields: Fields): nat {
    if fields.LastField? then Height(fields.field.tree) else Max(Height(fields.field.tree), FieldsHeight(fields.fields))
  }

  function Size(tree: Tree): nat {
    match tree
    case Array(_, items) => 1 + ItemsSize(items)
    case Object(_, fields) => 1 + FieldsSize(fields)
    case _ => 1
  }

  function ItemsSize(items: Items): nat {
    if items.LastItem? then Size(items.tree) else Size(items.tree) + ItemsSize(items.items)
  }

  function FieldsSize(fields: Fields): nat {
    if fields.LastField? then Size(fields.field.tree) else Size(fields.field.tree) + FieldsSize(fields.fields)
  }

  /** No object in the tree repeats a key. */
  predicate Unrepeated(tree: Tree) {
    match tree
    case Array(_, items) => ItemsUnrepeated(items)
    case Object(_, fields) => FieldsUnrepeated(fields, {})
    case _ => true
  }

  predicate ItemsUnrepeated(items: Items) {
    Unrepeated(items.tree) && (items.MoreItems? ==> ItemsUnrepeated(items.items))
  }

  predicate FieldsUnrepeated(fields: Fields, seen: set<Text>) {
    && fields.field.key !in seen && Unrepeated(fields.field.tree)
    && (fields.MoreFields? ==> FieldsUnrepeated(fields.fields, seen + {fields.field.key}))
  }

  predicate Fits(r: Rules, tree: Tree, depth: nat, nodes: nat) {
    depth + Height(tree) <= r.maxDepth && nodes + Size(tree) <= r.maxNodes && Unrepeated(tree)
  }

  predicate ItemsFit(r: Rules, items: Items, depth: nat, nodes: nat) {
    depth + ItemsHeight(items) <= r.maxDepth && nodes + ItemsSize(items) <= r.maxNodes && ItemsUnrepeated(items)
  }

  predicate FieldsFit(r: Rules, fields: Fields, seen: set<Text>, depth: nat, nodes: nat) {
    depth + FieldsHeight(fields) <= r.maxDepth && nodes + FieldsSize(fields) <= r.maxNodes &&
      FieldsUnrepeated(fields, seen)
  }

  // ----- every text of a tree is decided by the tree

  function Outcome(ok: bool, v: Json, rest: Text, nodes: nat): Scanned {
    if ok then Got(v, rest, nodes) else Failed
  }

  lemma {:induction false} SkipTwice(s: Text)
    ensures SkipSpace(SkipSpace(s)) == SkipSpace(s)
  {
    if s != [] && IsSpace(s[0]) {
      SkipTwice(s[1..]);
    }
  }

  lemma StringReads(body: Text, text: Text, rest: Text)
    requires Denotes(body, text)
    ensures ScanString(PutString(body, rest)) == Read(text, rest)
  {
    var s := PutString(body, rest)[1..];
    assert s == body + ([QUOTE] + rest);
    ClosedEnds(body, rest);
    assert s[..|body|] == body && s[|body| + 1..] == rest;
  }

  lemma PadEnds(pad: Text, rest: Text)
    requires Blank(pad) && Ends(rest)
    ensures Ends(pad + rest)
  {
    if pad == [] {
      assert pad + rest == rest;
    } else {
      assert (pad + rest)[0] == pad[0] && pad[0] in pad;
    }
  }

  /** A tree's text after its padding. */
  function PutBlack(tree: Tree, rest: Text): Text {
    match tree
    case Scalar(_, token) => token + rest
    case Quoted(_, body, _) => PutString(body, rest)
    case EmptyArray(_, inner) => [OPEN_ARRAY] + (inner + ([CLOSE_ARRAY] + rest))
    case Array(_, items) => [OPEN_ARRAY] + PutItems(items, rest)
    case EmptyObject(_, inner) => [OPEN_OBJECT] + (inner + ([CLOSE_OBJECT] + rest))
    case Object(_, fields) => [OPEN_OBJECT] + PutFields(fields, rest)
  }

  lemma BlackStarts(tree: Tree, rest: Text)
    requires WellFormed(tree)
    ensures StartsBlack(PutBlack(tree, rest))
    ensures !StartsWith(PutBlack(tree, rest), CLOSE_ARRAY)
    ensures SkipSpace(Put(tree, rest)) == PutBlack(tree, rest)
  {
    if tree.Scalar? {
      ScalarStart(tree.token);
      assert (tree.token + rest)[0] == tree.token[0];
    }
    SkipBlank(tree.pad, PutBlack(tree, rest));
  }

  lemma FieldStarts(f: Field, rest: Text)
    requires WellFormedField(f)
    ensures StartsWith(SkipSpace(PutField(f, rest)), QUOTE)
    ensures SkipSpace(PutField(f, rest)) == PutString(f.body, f.mid + ([COLON] + Put(f.tree, f.after + rest)))
  {
    SkipBlank(f.before, PutString(f.body, f.mid + ([COLON] + Put(f.tree, f.after + rest))));
  }

  lemma ScalarDecided(r: Rules, token: Text, rest: Text, depth: nat, nodes: nat)
    requires IsScalar(token) && Ends(rest)
    ensures ScanBlack(r, token + rest, depth, nodes) == Got(ScalarValue(r, token), rest, nodes)
  {
    var s := token + rest;
    ScalarStart(token);
    assert s[0] == token[0];
    ScalarStops(token, rest);
    assert s[..|token|] == token && s[|token|..] == rest;
  }

  lemma SkipToClose(inner: Text, close: Unit, rest: Text)
    requires Blank(inner) && !IsSpace(close)
    ensures SkipSpace(inner + ([close] + rest)) == [close] + rest
  {
    SkipBlank(inner, [close] + rest);
  }

  lemma TreeDecided(r: Rules, tree: Tree, rest: Text, depth: nat, nodes: nat)
    requires WellFormed(tree) && Ends(rest)
    ensures ScanValue(r, Put(tree, rest), depth, nodes) ==
            Outcome(Fits(r, tree, depth, nodes), ValueOf(r, tree), rest, nodes + Size(tree))
    decreases tree, 1
  {
    BlackStarts(tree, rest);
    if depth <= r.maxDepth && nodes + 1 <= r.maxNodes {
      BlackDecided(r, tree, rest, depth, nodes);
    }
  }

  lemma BlackDecided(r: Rules, tree: Tree, rest: Text, depth: nat, nodes: nat)
    requires WellFormed(tree) && Ends(rest)
    requires depth <= r.maxDepth && nodes + 1 <= r.maxNodes
    ensures ScanBlack(r, PutBlack(tree, rest), depth, nodes + 1) ==
            Outcome(Fits(r, tree, depth, nodes), ValueOf(r, tree), rest, nodes + Size(tree))
    decreases tree, 0
  {
    match tree
    case Array(_, items) =>
      ItemsDecided(r, items, rest, [], depth, nodes + 1);
      ArrayDecided(r, tree, rest, depth, nodes);
    case Object(_, fields) =>
      var none: map<Text, Json> := map[];
      assert none.Keys == {};
      FieldsDecided(r, fields, rest, none, depth, nodes + 1);
      ObjectDecided(r, tree, rest, depth, nodes);
    case _ =>
      LeafDecided(r, tree, rest, depth, nodes);
  }

  lemma LeafDecided(r: Rules, tree: Tree, rest: Text, depth: nat, nodes: nat)
    requires WellFormed(tree) && Ends(rest) && !tree.Array? && !tree.Object?
    ensures ScanBlack(r, PutBlack(tree, rest), depth, nodes + 1) == Got(ValueOf(r, tree), rest, nodes + Size(tree))
  {
    match tree
    case Scalar(_, token) => ScalarDecided(r, token, rest, depth, nodes + 1);
    case Quoted(_, body, text) => QuotedRead(r, body, text, rest, depth, nodes + 1);
    case EmptyArray(_, inner) => EmptyArrayRead(r, inner, rest, depth, nodes + 1);
    case EmptyObject(_, inner) => EmptyObjectRead(r, inner, rest, depth, nodes + 1);
  }

  lemma ArrayDecided(r: Rules, tree: Tree, rest: Text, depth: nat, nodes: nat)
    requires WellFormed(tree) && tree.Array?
    requires ScanItems(r, PutItems(tree.items, rest), [], depth, nodes + 1) ==
             Outcome(ItemsFit(r, tree.items, depth + 1, nodes + 1), Arr(ItemsOf(r, tree.items, [])), rest,
               nodes + 1 + ItemsSize(tree.items))
    ensures ScanBlack(r, PutBlack(tree, rest), depth, nodes + 1) ==
            Outcome(Fits(r, tree, depth, nodes), ValueOf(r, tree), rest, nodes + Size(tree))
  {
    ItemsSkip(r, tree.items, rest, depth, nodes + 1);
  }

  lemma ObjectDecided(r: Rules, tree: Tree, rest: Text, depth: nat, nodes: nat)
    requires WellFormed(tree) && tree.Object?
    requires ScanFields(r, PutFields(tree.fields, rest), map[], depth, nodes + 1) ==
             Outcome(FieldsFit(r, tree.fields, {}, depth + 1, nodes + 1), Obj(MembersOf(r, tree.fields, map[])), rest,
                     nodes + 1 + FieldsSize(tree.fields))
    ensures ScanBlack(r, PutBlack(tree, rest), depth, nodes + 1) ==
            Outcome(Fits(r, tree, depth, nodes), ValueOf(r, tree), rest, nodes + Size(tree))
  {
    FieldsSkip(r, tree.fields, rest, depth, nodes + 1);
  }

  lemma QuotedRead(r: Rules, body: Text, text: Text, rest: Text, depth: nat, nodes: nat)
    requires Denotes(body, text)
    ensures ScanBlack(r, PutString(body, rest), depth, nodes) == Got(Str(text), rest, nodes)
  {
    StringReads(body, text, rest);
  }

  lemma EmptyArrayRead(r: Rules, inner: Text, rest: Text, depth: nat, nodes: nat)
    requires Blank(inner)
    ensures ScanBlack(r, [OPEN_ARRAY] + (inner + ([CLOSE_ARRAY] + rest)), depth, nodes) == Got(Arr([]), rest, nodes)
  {
    var tail := inner + ([CLOSE_ARRAY] + rest);
    assert ([OPEN_ARRAY] + tail)[1..] == tail;
    SkipToClose(inner, CLOSE_ARRAY, rest);
    assert ([CLOSE_ARRAY] + rest)[1..] == rest;
  }

  lemma EmptyObjectRead(r: Rules, inner: Text, rest: Text, depth: nat, nodes: nat)
    requires Blank(inner)
    ensures ScanBlack(r, [OPEN_OBJECT] + (inner + ([CLOSE_OBJECT] + rest)), depth, nodes) ==
            Got(Obj(map[]), rest, nodes)
  {
    var tail := inner + ([CLOSE_OBJECT] + rest);
    assert ([OPEN_OBJECT] + tail)[1..] == tail;
    SkipToClose(inner, CLOSE_OBJECT, rest);
    assert ([CLOSE_OBJECT] + rest)[1..] == rest;
  }

  lemma ItemsStart(items: Items, rest: Text)
    requires WellFormedItems(items)
    ensures !StartsWith(SkipSpace(PutItems(items, rest)), CLOSE_ARRAY)
  {
    match items
    case LastItem(tree, after) => BlackStarts(tree, after + ([CLOSE_ARRAY] + rest));
    case MoreItems(tree, after, more) => BlackStarts(tree, after + ([COMMA] + PutItems(more, rest)));
  }

  lemma FieldsStart(fields: Fields, rest: Text)
    requires WellFormedFields(fields)
    ensures !StartsWith(SkipSpace(PutFields(fields, rest)), CLOSE_OBJECT)
  {
    match fields
    case LastField(f) => FieldStarts(f, [CLOSE_OBJECT] + rest);
    case MoreFields(f, more) => FieldStarts(f, [COMMA] + PutFields(more, rest));
  }

  lemma ItemsPadded(r: Rules, s: Text, depth: nat, nodes: nat)
    ensures ScanItems(r, SkipSpace(s), [], depth, nodes) == ScanItems(r, s, [], depth, nodes)
  {
    SkipTwice(s);
  }

  lemma FieldsPadded(r: Rules, s: Text, depth: nat, nodes: nat)
    ensures ScanFields(r, SkipSpace(s), map[], depth, nodes) == ScanFields(r, s, map[], depth, nodes)
  {
    SkipTwice(s);
  }

  lemma ItemsSkip(r: Rules, items: Items, rest: Text, depth: nat, nodes: nat)
    requires WellFormedItems(items)
    ensures ScanBlack(r, [OPEN_ARRAY] + PutItems(items, rest), depth, nodes) ==
            ScanItems(r, PutItems(items, rest), [], depth, nodes)
  {
    var tail := PutItems(items, rest);
    assert ([OPEN_ARRAY] + tail)[1..] == tail;
    ItemsStart(items, rest);
    ItemsPadded(r, tail, depth, nodes);
  }

  lemma FieldsSkip(r: Rules, fields: Fields, rest: Text, depth: nat, nodes: nat)
    requires WellFormedFields(fields)
    ensures ScanBlack(r, [OPEN_OBJECT] + PutFields(fields, rest), depth, nodes) ==
            ScanFields(r, PutFields(fields, rest), map[], depth, nodes)
  {
    var tail := PutFields(fields, rest);
    assert ([OPEN_OBJECT] + tail)[1..] == tail;
    FieldsStart(fields, rest);
    FieldsPadded(r, tail, depth, nodes);
  }

  lemma ItemCloses(r: Rules, fits: bool, v: Json, after: Text, stop: Unit, rest: Text, n: nat, items: seq<Json>,
                   depth: nat)
    requires Blank(after) && (stop == CLOSE_ARRAY || stop == COMMA)
    ensures AfterItem(r, Outcome(fits, v, after + ([stop] + rest), n), items, depth) ==
            if !fits then Failed
            else if stop == CLOSE_ARRAY then Got(Arr(items + [v]), rest, n)
            else ScanItems(r, rest, items + [v], depth, n)
  {
    SkipToClose(after, stop, rest);
    assert ([stop] + rest)[1..] == rest;
  }

  /** What scanning does with an item whose value is decided. */
  lemma ItemStep(r: Rules, s: Text, fits: bool, v: Json, size: nat, after: Text, stop: Unit, rest: Text,
                 items: seq<Json>, depth: nat, nodes: nat)
    requires Blank(after) && (stop == CLOSE_ARRAY || stop == COMMA)
    requires ScanValue(r, s, depth + 1, nodes) == Outcome(fits, v, after + ([stop] + rest), nodes + size)
    ensures ScanItems(r, s, items, depth, nodes) ==
            if !fits then Failed
            else if stop == CLOSE_ARRAY then Got(Arr(items + [v]), rest, nodes + size)
            else ScanItems(r, rest, items + [v], depth, nodes + size)
  {
    ItemCloses(r, fits, v, after, stop, rest, nodes + size, items, depth);
  }

  lemma ItemDecided(r: Rules, tree: Tree, after: Text, stop: Unit, rest: Text, items: seq<Json>, depth: nat, nodes: nat)
    requires WellFormed(tree) && Blank(after) && (stop == CLOSE_ARRAY || stop == COMMA)
    ensures ScanItems(r, Put(tree, after + ([stop] + rest)), items, depth, nodes) ==
            if !Fits(r, tree, depth + 1, nodes) then Failed
            else if stop == CLOSE_ARRAY then Got(Arr(items + [ValueOf(r, tree)]), rest, nodes + Size(tree))
            else ScanItems(r, rest, items + [ValueOf(r, tree)], depth, nodes + Size(tree))
    decreases tree, 2
  {
    var tail := after + ([stop] + rest);
    PadEnds(after, [stop] + rest);
    TreeDecided(r, tree, tail, depth + 1, nodes);
    ItemStep(r, Put(tree, tail), Fits(r, tree, depth + 1, nodes), ValueOf(r, tree), Size(tree), after, stop, rest,
      items, depth, nodes);
  }

  lemma ItemsFitStep(r: Rules, tree: Tree, after: Text, more: Items, depth: nat, nodes: nat)
    ensures ItemsFit(r, MoreItems(tree, after, more), depth, nodes) <==>
            Fits(r, tree, depth, nodes) && ItemsFit(r, more, depth, nodes + Size(tree))
  {
  }

  lemma ItemsDecided(r: Rules, items: Items, rest: Text, before: seq<Json>, depth: nat, nodes: nat)
    requires WellFormedItems(items)
    ensures ScanItems(r, PutItems(items, rest), before, depth, nodes) ==
            Outcome(ItemsFit(r, items, depth + 1, nodes), Arr(ItemsOf(r, items, before)), rest,
              nodes + ItemsSize(items))
    decreases items
  {
    match items
    case LastItem(tree, after) =>
      ItemDecided(r, tree, after, CLOSE_ARRAY, rest, before, depth, nodes);
    case MoreItems(tree, after, more) =>
      ItemDecided(r, tree, after, COMMA, PutItems(more, rest), before, depth, nodes);
      ItemsDecided(r, more, rest, before + [ValueOf(r, tree)], depth, nodes + Size(tree));
      ItemsFitStep(r, tree, after, more, depth + 1, nodes);
  }

  lemma FieldOpens(r: Rules, s: Text, key: Text, afterKey: Text, inside: Text, members: map<Text, Json>, depth: nat,
                   nodes: nat)
    requires ScanString(SkipSpace(s)) == Read(key, afterKey)
    requires SkipSpace(afterKey) == [COLON] + inside
    ensures ScanFields(r, s, members, depth, nodes) ==
            if key in members then Failed
            else AfterMember(r, ScanValue(r, inside, depth + 1, nodes), members, key, depth)
  {
    assert ([COLON] + inside)[1..] == inside;
  }

  lemma FieldLexed(f: Field, rest: Text, s: Text, inside: Text)
    requires WellFormedField(f)
    requires inside == Put(f.tree, f.after + rest)
    requires s == f.before + PutString(f.body, f.mid + ([COLON] + inside))
    ensures ScanString(SkipSpace(s)) == Read(f.key, f.mid + ([COLON] + inside))
    ensures SkipSpace(f.mid + ([COLON] + inside)) == [COLON] + inside
  {
    SkipBlank(f.before, PutString(f.body, f.mid + ([COLON] + inside)));
    StringReads(f.body, f.key, f.mid + ([COLON] + inside));
    SkipToClose(f.mid, COLON, inside);
  }

  lemma MemberCloses(r: Rules, fits: bool, v: Json, after: Text, stop: Unit, rest: Text, n: nat,
                     members: map<Text, Json>, key: Text, depth: nat)
    requires Blank(after) && (stop == CLOSE_OBJECT || stop == COMMA)
    ensures AfterMember(r, Outcome(fits, v, after + ([stop] + rest), n), members, key, depth) ==
            if !fits then Failed
            else if stop == CLOSE_OBJECT then Got(Obj(members[key := v]), rest, n)
            else ScanFields(r, rest, members[key := v], depth, n)
  {
    SkipToClose(after, stop, rest);
    assert ([stop] + rest)[1..] == rest;
  }

  /** What scanning does with a field whose value is decided. */
  lemma FieldStep(r: Rules, s: Text, key: Text, afterKey: Text, inside: Text, fits: bool, v: Json, size: nat,
                  after: Text, stop: Unit, rest: Text, members: map<Text, Json>, depth: nat, nodes: nat)
    requires Blank(after) && (stop == CLOSE_OBJECT || stop == COMMA)
    requires ScanString(SkipSpace(s)) == Read(key, afterKey) && SkipSpace(afterKey) == [COLON] + inside
    requires ScanValue(r, inside, depth + 1, nodes) == Outcome(fits, v, after + ([stop] + rest), nodes + size)
    ensures ScanFields(r, s, members, depth, nodes) ==
            if key in members || !fits then Failed
            else if stop == CLOSE_OBJECT then Got(Obj(members[key := v]), rest, nodes + size)
            else ScanFields(r, rest, members[key := v], depth, nodes + size)
  {
    FieldOpens(r, s, key, afterKey, inside, members, depth, nodes);
    MemberCloses(r, fits, v, after, stop, rest, nodes + size, members, key, depth);
  }

  lemma MembersStep(r: Rules, f: Field, more: Fields, before: map<Text, Json>)
    ensures MembersOf(r, MoreFields(f, more), before) == MembersOf(r, more, before[f.key := ValueOf(r, f.tree)])
    ensures FieldsSize(MoreFields(f, more)) == Size(f.tree) + FieldsSize(more)
  {
  }

  lemma FieldsLastStep(r: Rules, f: Field, seen: set<Text>, depth: nat, nodes: nat)
    ensures FieldsFit(r, LastField(f), seen, depth, nodes) <==> f.key !in seen && Fits(r, f.tree, depth, nodes)
  {
  }

  /** The text after the first field, and the sign between. */
  function NextFields(fields: Fields, rest: Text): Text {
    if fields.LastField? then rest else PutFields(fields.fields, rest)
  }

  function FieldSign(fields: Fields): Unit {
    if fields.LastField? then CLOSE_OBJECT else COMMA
  }

  lemma TreeDecidedAt(r: Rules, tree: Tree, rest: Text, s: Text, depth: nat, nodes: nat, fits: bool, v: Json, size: nat)
    requires WellFormed(tree) && Ends(rest)
    requires s == Put(tree, rest) && fits == Fits(r, tree, depth, nodes) && v == ValueOf(r, tree) && size == Size(tree)
    ensures ScanValue(r, s, depth, nodes) == Outcome(fits, v, rest, nodes + size)
    decreases tree, 2
  {
    TreeDecided(r, tree, rest, depth, nodes);
  }

  lemma FirstField(r: Rules, f: Field, stop: Unit, next: Text, s: Text, members: map<Text, Json>, depth: nat,
                   nodes: nat, fits: bool, v: Json, size: nat)
    requires WellFormedField(f) && (stop == CLOSE_OBJECT || stop == COMMA)
    requires s == f.before + PutString(f.body, f.mid + ([COLON] + Put(f.tree, f.after + ([stop] + next))))
    requires fits == Fits(r, f.tree, depth + 1, nodes) && v == ValueOf(r, f.tree) && size == Size(f.tree)
    ensures ScanFields(r, s, members, depth, nodes) ==
            if f.key in members || !fits then Failed
            else if stop == CLOSE_OBJECT then Got(Obj(members[f.key := v]), next, nodes + size)
            else ScanFields(r, next, members[f.key := v], depth, nodes + size)
    decreases f, 0
  {
    var tail := f.after + ([stop] + next);
    var inside := Put(f.tree, tail);
    FieldLexed(f, [stop] + next, s, inside);
    PadEnds(f.after, [stop] + next);
    TreeDecidedAt(r, f.tree, tail, inside, depth + 1, nodes, fits, v, size);
    FieldStep(r, s, f.key, f.mid + ([COLON] + inside), inside, fits, v, size, f.after, stop, next, members, depth,
      nodes);
  }

  lemma PutFirst(fields: Fields, rest: Text)
    ensures PutFields(fields, rest) ==
            fields.field.before + PutString(fields.field.body, fields.field.mid + ([COLON] +
            Put(fields.field.tree, fields.field.after + ([FieldSign(fields)] + NextFields(fields, rest)))))
  {
    assert PutFields(fields, rest) == PutField(fields.field, [FieldSign(fields)] + NextFields(fields, rest));
  }

  lemma GrownKeys(members: map<Text, Json>, key: Text, v: Json)
    ensures members[key := v].Keys == members.Keys + {key}
  {
  }

  lemma LastDecided(r: Rules, f: Field, rest: Text, before: map<Text, Json>, depth: nat, nodes: nat)
    requires WellFormedField(f)
    ensures ScanFields(r, PutFields(LastField(f), rest), before, depth, nodes) ==
            Outcome(f.key !in before &&
              Fits(r, f.tree, depth + 1, nodes), Obj(before[f.key := ValueOf(r, f.tree)]), rest,
                    nodes + Size(f.tree))
    decreases f, 3
  {
    PutFirst(LastField(f), rest);
    FirstField(r, f, CLOSE_OBJECT, rest, PutFields(LastField(f), rest), before, depth, nodes,
      Fits(r, f.tree, depth + 1, nodes),
               ValueOf(r, f.tree), Size(f.tree));
  }

  lemma MoreDecided(r: Rules, f: Field, more: Fields, rest: Text, before: map<Text, Json>, depth: nat, nodes: nat,
                    ok: bool, v: Json, n: nat)
    requires WellFormedField(f)
    requires ScanFields(r, PutFields(more, rest), before[f.key := ValueOf(r, f.tree)], depth, nodes + Size(f.tree)) ==
             Outcome(ok, v, rest, n)
    ensures ScanFields(r, PutFields(MoreFields(f, more), rest), before, depth, nodes) ==
            Outcome(f.key !in before && Fits(r, f.tree, depth + 1, nodes) && ok, v, rest, n)
    decreases f, 3
  {
    PutFirst(MoreFields(f, more), rest);
    FirstField(r, f, COMMA, PutFields(more, rest), PutFields(MoreFields(f, more), rest), before, depth, nodes,
               Fits(r, f.tree, depth + 1, nodes), ValueOf(r, f.tree), Size(f.tree));
  }

  lemma FieldsDecided(r: Rules, fields: Fields, rest: Text, before: map<Text, Json>, depth: nat, nodes: nat)
    requires WellFormedFields(fields)
    ensures ScanFields(r, PutFields(fields, rest), before, depth, nodes) ==
            Outcome(FieldsFit(r, fields, before.Keys, depth + 1, nodes), Obj(MembersOf(r, fields, before)), rest,
              nodes + FieldsSize(fields))
    decreases fields
  {
    match fields
    case LastField(f) =>
      LastDecided(r, f, rest, before, depth, nodes);
      FieldsLastStep(r, f, before.Keys, depth + 1, nodes);
    case MoreFields(f, more) =>
      var v, n := ValueOf(r, f.tree), nodes + Size(f.tree);
      var grown := before[f.key := v];
      FieldsDecided(r, more, rest, grown, depth, n);
      MoreDecided(r, f, more, rest, before, depth, nodes, FieldsFit(r, more, grown.Keys, depth + 1, n),
                  Obj(MembersOf(r, more, grown)), n + FieldsSize(more));
      GrownKeys(before, f.key, v);
      FieldsFitStep(r, f, more, before.Keys, depth + 1, nodes);
      MembersStep(r, f, more, before);
  }

  lemma FieldsFitStep(r: Rules, f: Field, more: Fields, seen: set<Text>, depth: nat, nodes: nat)
    ensures FieldsFit(r, MoreFields(f, more), seen, depth, nodes) <==>
            && f.key !in seen && Fits(r, f.tree, depth, nodes)
            && FieldsFit(r, more, seen + {f.key}, depth, nodes + Size(f.tree))
  {
  }

  // ----- every text that is accepted is the text of a tree

  lemma FirstUnit(s: Text, u: Unit)
    requires StartsWith(s, u)
    ensures s == [u] + s[1..]
  {
  }

  lemma StringText(s: Text) returns (body: Text)
    requires ScanString(s).Read?
    ensures Denotes(body, ScanString(s).text) && s == PutString(body, ScanString(s).rest)
  {
    var inside := s[1..];
    var n := BodyEnd(inside).value;
    body := inside[..n];
    EndCloses(inside);
    assert inside == body + ([QUOTE] + inside[n + 1..]);
    FirstUnit(s, QUOTE);
  }

  lemma PutPadded(tree: Tree, rest: Text)
    ensures Put(tree, rest) == tree.pad + PutBlack(tree, rest)
  {
  }

  lemma ValueText(r: Rules, s: Text, depth: nat, nodes: nat) returns (tree: Tree)
    requires ScanValue(r, s, depth, nodes).Got?
    ensures WellFormed(tree) && s == Put(tree, ScanValue(r, s, depth, nodes).rest)
    decreases |s|, 1
  {
    var pad := SkipSplits(s);
    tree := BlackText(r, pad, SkipSpace(s), depth, nodes + 1);
    PutPadded(tree, ScanValue(r, s, depth, nodes).rest);
  }

  lemma BlackText(r: Rules, pad: Text, s: Text, depth: nat, nodes: nat) returns (tree: Tree)
    requires Blank(pad) && ScanBlack(r, s, depth, nodes).Got?
    ensures WellFormed(tree) && tree.pad == pad && s == PutBlack(tree, ScanBlack(r, s, depth, nodes).rest)
    decreases |s|, 0
  {
    if StartsWith(s, OPEN_OBJECT) {
      tree := ObjectText(r, pad, s, depth, nodes);
    } else if StartsWith(s, OPEN_ARRAY) {
      tree := ArrayText(r, pad, s, depth, nodes);
    } else if StartsWith(s, QUOTE) {
      var body := StringText(s);
      tree := Quoted(pad, body, ScanString(s).text);
    } else {
      var n := ScalarLength(s);
      ScalarCut(s);
      tree := Scalar(pad, s[..n]);
      assert s == s[..n] + s[n..];
    }
  }

  lemma ArrayText(r: Rules, pad: Text, s: Text, depth: nat, nodes: nat) returns (tree: Tree)
    requires Blank(pad) && StartsWith(s, OPEN_ARRAY) && ScanBlack(r, s, depth, nodes).Got?
    ensures WellFormed(tree) && tree.pad == pad && s == PutBlack(tree, ScanBlack(r, s, depth, nodes).rest)
    decreases |s|, 0, 0
  {
    var t := SkipSpace(s[1..]);
    FirstUnit(s, OPEN_ARRAY);
    if StartsWith(t, CLOSE_ARRAY) {
      var inner := SkipSplits(s[1..]);
      FirstUnit(t, CLOSE_ARRAY);
      tree := EmptyArray(pad, inner);
    } else {
      ItemsPadded(r, s[1..], depth, nodes);
      var items := ItemsText(r, s[1..], [], depth, nodes);
      tree := Array(pad, items);
    }
  }

  lemma ObjectText(r: Rules, pad: Text, s: Text, depth: nat, nodes: nat) returns (tree: Tree)
    requires Blank(pad) && StartsWith(s, OPEN_OBJECT) && ScanBlack(r, s, depth, nodes).Got?
    ensures WellFormed(tree) && tree.pad == pad && s == PutBlack(tree, ScanBlack(r, s, depth, nodes).rest)
    decreases |s|, 0, 0
  {
    var t := SkipSpace(s[1..]);
    FirstUnit(s, OPEN_OBJECT);
    if StartsWith(t, CLOSE_OBJECT) {
      var inner := SkipSplits(s[1..]);
      FirstUnit(t, CLOSE_OBJECT);
      tree := EmptyObject(pad, inner);
    } else {
      FieldsPadded(r, s[1..], depth, nodes);
      var fields := FieldsText(r, s[1..], map[], depth, nodes);
      tree := Object(pad, fields);
    }
  }

  lemma ItemsText(r: Rules, s: Text, before: seq<Json>, depth: nat, nodes: nat) returns (items: Items)
    requires ScanItems(r, s, before, depth, nodes).Got?
    ensures WellFormedItems(items) && s == PutItems(items, ScanItems(r, s, before, depth, nodes).rest)
    decreases |s|, 2
  {
    var g := ScanValue(r, s, depth + 1, nodes);
    var tree := ValueText(r, s, depth + 1, nodes);
    var after := SkipSplits(g.rest);
    var t := SkipSpace(g.rest);
    if StartsWith(t, CLOSE_ARRAY) {
      FirstUnit(t, CLOSE_ARRAY);
      items := LastItem(tree, after);
    } else {
      FirstUnit(t, COMMA);
      var more := ItemsText(r, t[1..], before + [g.value], depth, g.nodes);
      items := MoreItems(tree, after, more);
    }
  }

  lemma FieldsText(r: Rules, s: Text, before: map<Text, Json>, depth: nat, nodes: nat) returns (fields: Fields)
    requires ScanFields(r, s, before, depth, nodes).Got?
    ensures WellFormedFields(fields) && s == PutFields(fields, ScanFields(r, s, before, depth, nodes).rest)
    decreases |s|, 2
  {
    var pad := SkipSplits(s);
    var lexed := ScanString(SkipSpace(s));
    var body := StringText(SkipSpace(s));
    var mid := SkipSplits(lexed.rest);
    var t := SkipSpace(lexed.rest);
    FirstUnit(t, COLON);
    var g := ScanValue(r, t[1..], depth + 1, nodes);
    var tree := ValueText(r, t[1..], depth + 1, nodes);
    var after := SkipSplits(g.rest);
    var u := SkipSpace(g.rest);
    var f := Field(pad, body, lexed.text, mid, tree, after);
    assert s == PutField(f, u);
    if StartsWith(u, CLOSE_OBJECT) {
      FirstUnit(u, CLOSE_OBJECT);
      fields := LastField(f);
    } else {
      FirstUnit(u, COMMA);
      var more := FieldsText(r, u[1..], before[lexed.text := g.value], depth, g.nodes);
      fields := MoreFields(f, more);
    }
  }

  // ----- the grammar the scanner decides

  lemma BlankEnds(tail: Text)
    requires Blank(tail)
    ensures Ends(tail) && SkipSpace(tail) == []
  {
    SkipBlank(tail, []);
    assert tail + [] == tail;
    if tail != [] {
      assert tail[0] in tail;
    }
  }

  /** A text that follows the grammar is accepted exactly when it stays within the limits and
      repeats no key, and then it is read as what it denotes. */
  lemma TreeVerdict(r: Rules, tree: Tree, tail: Text)
    requires WellFormed(tree) && Blank(tail)
    ensures ReadStrict(r, Put(tree, tail)) == if Fits(r, tree, 0, 0) then Some(ValueOf(r, tree)) else None
  {
    BlankEnds(tail);
    TreeDecided(r, tree, tail, 0, 0);
  }

  lemma RepeatedKeyRefused(r: Rules, tree: Tree, tail: Text)
    requires WellFormed(tree) && Blank(tail) && !Unrepeated(tree)
    ensures ReadStrict(r, Put(tree, tail)) == None
  {
    TreeVerdict(r, tree, tail);
  }

  /** `text` is a text of `tree` that the limits and the keys allow. */
  ghost predicate Spells(r: Rules, text: Text, tree: Tree, tail: Text) {
    WellFormed(tree) && Blank(tail) && text == Put(tree, tail) && Fits(r, tree, 0, 0)
  }

  /** The scanner accepts exactly the texts of the grammar. */
  lemma StrictDecides(r: Rules, text: Text, v: Json)
    ensures ReadStrict(r, text) == Some(v) <==>
            exists tree, tail :: Spells(r, text, tree, tail) && ValueOf(r, tree) == v
  {
    if ReadStrict(r, text) == Some(v) {
      var tree := ValueText(r, text, 0, 0);
      var tail := ScanValue(r, text, 0, 0).rest;
      var pad := SkipSplits(tail);
      assert tail == pad;
      TreeVerdict(r, tree, tail);
      assert Spells(r, text, tree, tail);
    }
    if tree, tail :| Spells(r, text, tree, tail) && ValueOf(r, tree) == v {
      TreeVerdict(r, tree, tail);
    }
  }
}
