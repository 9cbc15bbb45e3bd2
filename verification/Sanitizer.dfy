/** The image-placeholder sanitizer: a recursive walk over a parsed body that rewrites string values
    and keeps a count, and the fail-open wrapper that decides whether the rewritten body is used. */
module Sanitizer {
  import opened Options
  import opened Placeholders
  import opened Escapes

  datatype Field = Field(key: string, value: Json)

  /** A parsed JSON body; `Scalar` is a number, a boolean or null. */
  datatype Json = Text(s: string) | Items(items: seq<Json>) | Fields(fields: seq<Field>) | Scalar(code: int)

  function Clean(o: Json): Json
    decreases o
  {
    match o
    case Text(s) => Text(Replace(s, PLACEHOLDER, REPLACEMENT))
    case Items(items) => Items(CleanItems(items))
    case Fields(fields) => Fields(CleanFields(fields))
    case Scalar(_) => o
  }

  function CleanItems(items: seq<Json>): seq<Json>
    decreases items
  {
    if items == [] then [] else [Clean(items[0])] + CleanItems(items[1..])
  }

  function CleanFields(fields: seq<Field>): seq<Field>
    decreases fields
  {
    if fields == [] then [] else [Field(fields[0].key, Clean(fields[0].value))] + CleanFields(fields[1..])
  }

  /** Number of placeholders replaced. */
  function Hits(o: Json): nat
    decreases o
  {
    match o
    case Text(s) => Count(s, PLACEHOLDER)
    case Items(items) => HitsInItems(items)
    case Fields(fields) => HitsInFields(fields)
    case Scalar(_) => 0
  }

  function HitsInItems(items: seq<Json>): nat
    decreases items
  {
    if items == [] then 0 else Hits(items[0]) + HitsInItems(items[1..])
  }

  function HitsInFields(fields: seq<Field>): nat
    decreases fields
  {
    if fields == [] then 0 else Hits(fields[0].value) + HitsInFields(fields[1..])
  }

  /** Some string value holds the placeholder. */
  ghost predicate Tainted(o: Json)
    decreases o
  {
    match o
    case Text(s) => Contains(s, PLACEHOLDER)
    case Items(items) => exists i :: 0 <= i < |items| && Tainted(items[i])
    case Fields(fields) => exists i :: 0 <= i < |fields| && Tainted(fields[i].value)
    case Scalar(_) => false
  }

  /** Some dictionary key holds the placeholder. */
  ghost predicate TaintedKey(o: Json)
    decreases o
  {
    match o
    case Text(_) => false
    case Items(items) => exists i :: 0 <= i < |items| && TaintedKey(items[i])
    case Fields(fields) =>
      exists i :: 0 <= i < |fields| && (Contains(fields[i].key, PLACEHOLDER) || TaintedKey(fields[i].value))
    case Scalar(_) => false
  }

  lemma {:induction false} CleanItemsAt(items: seq<Json>)
    ensures |CleanItems(items)| == |items|
    ensures forall i :: 0 <= i < |items| ==> CleanItems(items)[i] == Clean(items[i])
  {
    if items != [] {
      CleanItemsAt(items[1..]);
    }
  }

  lemma {:induction false} CleanFieldsAt(fields: seq<Field>)
    ensures |CleanFields(fields)| == |fields|
    ensures forall i :: 0 <= i < |fields| ==> CleanFields(fields)[i] == Field(fields[i].key, Clean(fields[i].value))
  {
    if fields != [] {
      CleanFieldsAt(fields[1..]);
    }
  }

  lemma {:induction false} HitsInItemsZero(items: seq<Json>)
    ensures HitsInItems(items) == 0 <==> forall i :: 0 <= i < |items| ==> Hits(items[i]) == 0
  {
    if items != [] {
      HitsInItemsZero(items[1..]);
      assert forall i :: 0 < i < |items| ==> items[i] == items[1..][i - 1];
    }
  }

  lemma {:induction false} HitsInFieldsZero(fields: seq<Field>)
    ensures HitsInFields(fields) == 0 <==> forall i :: 0 <= i < |fields| ==> Hits(fields[i].value) == 0
  {
    if fields != [] {
      HitsInFieldsZero(fields[1..]);
      assert forall i :: 0 < i < |fields| ==> fields[i] == fields[1..][i - 1];
    }
  }

  /** A sanitized body has no placeholder in any string value, at any depth. */
  lemma {:induction false} CleanIsUntainted(o: Json)
    ensures !Tainted(Clean(o))
    decreases o
  {
    match o
    case Text(s) =>
      PlaceholderFacts();
      ReplaceRemovesAll(s, PLACEHOLDER, REPLACEMENT);
    case Items(items) =>
      CleanItemsAt(items);
      forall i | 0 <= i < |items| { CleanIsUntainted(items[i]); }
    case Fields(fields) =>
      CleanFieldsAt(fields);
      forall i | 0 <= i < |fields| { CleanIsUntainted(fields[i].value); }
    case Scalar(_) =>
  }

  /** The count is zero exactly when there is nothing to sanitize, and then the body is unchanged. */
  lemma {:induction false} NoHitsNoChange(o: Json)
    ensures Hits(o) == 0 <==> !Tainted(o)
    ensures Hits(o) == 0 ==> Clean(o) == o
    decreases o
  {
    match o
    case Text(s) => CountZeroIff(s, PLACEHOLDER, REPLACEMENT);
    case Items(items) =>
      CleanItemsAt(items);
      HitsInItemsZero(items);
      forall i | 0 <= i < |items| { NoHitsNoChange(items[i]); }
      if Hits(o) == 0 {
        assert CleanItems(items) == items;
      }
    case Fields(fields) =>
      CleanFieldsAt(fields);
      HitsInFieldsZero(fields);
      forall i | 0 <= i < |fields| { NoHitsNoChange(fields[i].value); }
      if Hits(o) == 0 {
        assert CleanFields(fields) == fields;
      }
    case Scalar(_) =>
  }

  /** Sanitizing twice is sanitizing once, and the second pass counts nothing. */
  lemma SanitizingIsIdempotent(o: Json)
    ensures Clean(Clean(o)) == Clean(o) && Hits(Clean(o)) == 0
  {
    CleanIsUntainted(o);
    NoHitsNoChange(Clean(o));
  }

  /** Per string value the count is the number of places where the placeholder stands. */
  lemma HitsAreOccurrences(s: string)
    ensures Hits(Text(s)) == |Positions(s, PLACEHOLDER)|
    ensures |Clean(Text(s)).s| == |s| - 14 * Hits(Text(s))
  {
    PlaceholderFacts();
    CountIsOccurrences(s, PLACEHOLDER);
    ReplaceLength(s, PLACEHOLDER, REPLACEMENT);
  }

  /** Keys are not rewritten: the sanitized body is free of the placeholder exactly when the keys were. */
  lemma {:induction false} KeysAreKept(o: Json)
    ensures TaintedKey(Clean(o)) <==> TaintedKey(o)
    decreases o
  {
    match o
    case Text(_) =>
    case Items(items) =>
      CleanItemsAt(items);
      forall i | 0 <= i < |items| { KeysAreKept(items[i]); }
    case Fields(fields) =>
      CleanFieldsAt(fields);
      forall i | 0 <= i < |fields| { KeysAreKept(fields[i].value); }
    case Scalar(_) =>
  }

  /** So a body can keep a placeholder through the sanitizer: in a key. */
  lemma KeyPlaceholderSurvives() returns (o: Json)
    ensures !Tainted(o) && TaintedKey(Clean(o)) && Clean(o) == o
  {
    o := Fields([Field(PLACEHOLDER, Scalar(0))]);
    assert PLACEHOLDER[0..] == PLACEHOLDER;
    assert OccursAt(PLACEHOLDER, PLACEHOLDER, 0);
    assert Contains(o.fields[0].key, PLACEHOLDER);
    KeysAreKept(o);
    assert !Tainted(o);
    NoHitsNoChange(o);
  }

  /** The string values of a tree, in order. */
  function Texts(o: Json): seq<string>
    decreases o
  {
    match o
    case Text(s) => [s]
    case Items(items) => TextsOfItems(items)
    case Fields(fields) => TextsOfFields(fields)
    case Scalar(_) => []
  }

  function TextsOfItems(items: seq<Json>): seq<string>
    decreases items
  {
    if items == [] then [] else Texts(items[0]) + TextsOfItems(items[1..])
  }

  function TextsOfFields(fields: seq<Field>): seq<string>
    decreases fields
  {
    if fields == [] then [] else Texts(fields[0].value) + TextsOfFields(fields[1..])
  }

  /** The tree with its string values left out. */
  function Blank(o: Json): Json
    decreases o
  {
    match o
    case Text(_) => Text("")
    case Items(items) => Items(BlankItems(items))
    case Fields(fields) => Fields(BlankFields(fields))
    case Scalar(_) => o
  }

  function BlankItems(items: seq<Json>): seq<Json>
    decreases items
  {
    if items == [] then [] else [Blank(items[0])] + BlankItems(items[1..])
  }

  function BlankFields(fields: seq<Field>): seq<Field>
    decreases fields
  {
    if fields == [] then [] else [Field(fields[0].key, Blank(fields[0].value))] + BlankFields(fields[1..])
  }

  /** The texts with every placeholder replaced. */
  function Replaced(texts: seq<string>): (r: seq<string>)
    ensures |r| == |texts| && forall i :: 0 <= i < |r| ==> r[i] == Replace(texts[i], PLACEHOLDER, REPLACEMENT)
  {
    seq(|texts|, i requires 0 <= i < |texts| => Replace(texts[i], PLACEHOLDER, REPLACEMENT))
  }

  /** The places where a placeholder stands, in all texts. */
  ghost function Places(texts: seq<string>): nat
  {
    if texts == [] then 0 else |Positions(texts[0], PLACEHOLDER)| + Places(texts[1..])
  }

  lemma {:induction false} PlacesJoin(a: seq<string>, b: seq<string>)
    ensures Places(a + b) == Places(a) + Places(b)
  {
    if a == [] {
      assert a + b == b;
    } else {
      PlacesJoin(a[1..], b);
      assert (a + b)[1..] == a[1..] + b;
    }
  }

  lemma PlacesOfOne(s: string)
    ensures Places([s]) == Count(s, PLACEHOLDER)
  {
    PlaceholderFacts();
    CountIsOccurrences(s, PLACEHOLDER);
    assert [s][1..] == [];
  }

  lemma ReplacedJoins(a: seq<string>, b: seq<string>)
    ensures Replaced(a + b) == Replaced(a) + Replaced(b)
  {
  }

  /** A sanitized tree is the same tree with the placeholders of its string values replaced, and the hits are the places
      where they stood. */
  lemma {:induction false} CleanIsReplaced(o: Json)
    ensures Blank(Clean(o)) == Blank(o) && Texts(Clean(o)) == Replaced(Texts(o)) && Hits(o) == Places(Texts(o))
    decreases o, 0
  {
    match o
    case Text(s) => PlacesOfOne(s);
    case Items(items) => ItemsAreReplaced(items);
    case Fields(fields) => FieldsAreReplaced(fields);
    case Scalar(_) =>
  }

  lemma {:induction false} ItemsAreReplaced(items: seq<Json>)
    ensures BlankItems(CleanItems(items)) == BlankItems(items)
    ensures TextsOfItems(CleanItems(items)) == Replaced(TextsOfItems(items)) && HitsInItems(items) == Places(TextsOfItems(items))
    decreases items, 1
  {
    if items != [] {
      CleanIsReplaced(items[0]);
      ItemsAreReplaced(items[1..]);
      assert CleanItems(items)[1..] == CleanItems(items[1..]);
      ReplacedJoins(Texts(items[0]), TextsOfItems(items[1..]));
      PlacesJoin(Texts(items[0]), TextsOfItems(items[1..]));
    }
  }

  lemma {:induction false} FieldsAreReplaced(fields: seq<Field>)
    ensures BlankFields(CleanFields(fields)) == BlankFields(fields)
    ensures TextsOfFields(CleanFields(fields)) == Replaced(TextsOfFields(fields))
    ensures HitsInFields(fields) == Places(TextsOfFields(fields))
    decreases fields, 1
  {
    if fields != [] {
      CleanIsReplaced(fields[0].value);
      FieldsAreReplaced(fields[1..]);
      assert CleanFields(fields)[1..] == CleanFields(fields[1..]);
      ReplacedJoins(Texts(fields[0].value), TextsOfFields(fields[1..]));
      PlacesJoin(Texts(fields[0].value), TextsOfFields(fields[1..]));
    }
  }

  /** In every string value the text around the placeholders stays: there are parts, none of which holds the placeholder,
      that it joins to the value before, and the replacement to the value after. */
  lemma CleanKeepsTheRest(o: Json, i: nat) returns (parts: seq<string>)
    requires i < |Texts(o)|
    ensures Blank(Clean(o)) == Blank(o) && |Texts(Clean(o))| == |Texts(o)|
    ensures Free(parts, PLACEHOLDER) && |parts| == |Positions(Texts(o)[i], PLACEHOLDER)| + 1
    ensures Join(parts, PLACEHOLDER) == Texts(o)[i] && Join(parts, REPLACEMENT) == Texts(Clean(o))[i]
  {
    CleanIsReplaced(o);
    parts := ReplaceKeepsTheRest(Texts(o)[i], PLACEHOLDER, REPLACEMENT);
    PlaceholderFacts();
    CountIsOccurrences(Texts(o)[i], PLACEHOLDER);
  }

  const CHAT_PATH: string := "/chat/completions"
  const RESPONSES_PATH: string := "/responses"

  ghost predicate IsChatPath(path: string)
  {
    Contains(path, CHAT_PATH) || Contains(path, RESPONSES_PATH)
  }

  /** Module state the sanitizer touches: the running count of one call and two counters. */
  class Gateway {
    var count: nat
    var placeholdersSanitized: nat
    var sanitizeRequests: nat

    /** The recursive walk with its shared count. */
    method Walk(o: Json) returns (r: Json)
      modifies this`count
      ensures r == Clean(o) && count == old(count) + Hits(o)
      decreases o, 0
    {
      match o
      case Text(s) =>
        if Count(s, PLACEHOLDER) > 0 {
          count := count + Count(s, PLACEHOLDER);
          r := Text(Replace(s, PLACEHOLDER, REPLACEMENT));
        } else {
          CountZeroIff(s, PLACEHOLDER, REPLACEMENT);
          r := o;
        }
      case Items(items) =>
        var out := WalkItems(items);
        r := Items(out);
      case Fields(fields) =>
        var out := WalkFields(fields);
        r := Fields(out);
      case Scalar(_) => r := o;
    }

    method WalkItems(items: seq<Json>) returns (out: seq<Json>)
      modifies this`count
      ensures out == CleanItems(items) && count == old(count) + HitsInItems(items)
      decreases items, 1
    {
      out := [];
      var i := 0;
      while i < |items|
        invariant 0 <= i <= |items|
        invariant out + CleanItems(items[i..]) == CleanItems(items)
        invariant count + HitsInItems(items[i..]) == old(count) + HitsInItems(items)
      {
        var x := Walk(items[i]);
        assert items[i..][1..] == items[i + 1..];
        assert out + CleanItems(items[i..]) == out + [x] + CleanItems(items[i + 1..]);
        out := out + [x];
        i := i + 1;
      }
      assert items[i..] == [];
    }

    method WalkFields(fields: seq<Field>) returns (out: seq<Field>)
      modifies this`count
      ensures out == CleanFields(fields) && count == old(count) + HitsInFields(fields)
      decreases fields, 1
    {
      out := [];
      var i := 0;
      while i < |fields|
        invariant 0 <= i <= |fields|
        invariant out + CleanFields(fields[i..]) == CleanFields(fields)
        invariant count + HitsInFields(fields[i..]) == old(count) + HitsInFields(fields)
      {
        var x := Walk(fields[i].value);
        assert fields[i..][1..] == fields[i + 1..];
        assert out + CleanFields(fields[i..]) == out + [Field(fields[i].key, x)] + CleanFields(fields[i + 1..]);
        out := out + [Field(fields[i].key, x)];
        i := i + 1;
      }
      assert fields[i..] == [];
    }

    /** `sanitize_image_placeholders`: the switch, the path and the byte trigger come first; a body that does not
        parse, has no placeholder, or cannot be encoded again passes verbatim and is not counted. `parse` and
        `encode` are the JSON codec; bytes are characters. */
    method Sanitize(enabled: bool, path: string, body: string, parse: string -> Option<Json>,
                    encode: Json -> Option<string>) returns (out: string)
      modifies this
      ensures var o := parse(body);
              var rewrites := enabled && IsChatPath(path) && Contains(body, TRIGGER)
                              && o.Some? && Tainted(o.value) && encode(Clean(o.value)).Some?;
              && out == (if rewrites then encode(Clean(o.value)).value else body)
              && placeholdersSanitized == old(placeholdersSanitized) + (if rewrites then Hits(o.value) else 0)
              && sanitizeRequests == old(sanitizeRequests) + (if rewrites then 1 else 0)
    {
      CountZeroIff(path, CHAT_PATH, "");
      CountZeroIff(path, RESPONSES_PATH, "");
      CountZeroIff(body, TRIGGER, "");
      if !enabled || (Count(path, CHAT_PATH) == 0 && Count(path, RESPONSES_PATH) == 0) || Count(body, TRIGGER) == 0 {
        return body;
      }
      var parsed := parse(body);
      if parsed.None? {
        return body;
      }
      NoHitsNoChange(parsed.value);
      count := 0;
      var obj := Walk(parsed.value);
      if count == 0 {
        return body;
      }
      var encoded := encode(obj);
      if encoded.None? {
        return body;
      }
      placeholdersSanitized := placeholdersSanitized + count;
      sanitizeRequests := sanitizeRequests + 1;
      return encoded.value;
    }
  }
}
