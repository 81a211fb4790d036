/** JSON as a stream of tokens and as a tree, and the depth-bounded skipper between them. */
module JsonTokens {
  import opened Wrappers

  /** A number literal, as each decoder target reads it; None when it does not fit that target. */
  datatype Number = Number(float32: Option<real>, integer: Option<int>, unsigned: Option<nat>)

  /** What the tokenizer yields; Bad stands for text that is no token. */
  datatype Token = OpenObject | CloseObject | OpenArray | CloseArray
                 | Str(text: string) | Num(number: Number) | Bool(value: bool) | Null | Bad

  datatype Json = Text(text: string) | Numeric(number: Number) | Boolean(value: bool) | Nil
                | Array(items: seq<Json>) | Object(fields: seq<Field>)
  datatype Field = Field(key: string, value: Json)

  const MAXIMUM_NESTING: nat := 64

  function Tokens(v: Json): (ts: seq<Token>)
    ensures ts != []
    decreases v, 1
  {
    match v
    case Text(s) => [Str(s)]
    case Numeric(n) => [Num(n)]
    case Boolean(b) => [Bool(b)]
    case Nil => [Null]
    case Array(items) => [OpenArray] + ItemTokens(items) + [CloseArray]
    case Object(fields) => [OpenObject] + FieldTokens(fields) + [CloseObject]
  }

  function ItemTokens(items: seq<Json>): seq<Token>
    decreases items, 0
  {
    if items == [] then [] else Tokens(items[0]) + ItemTokens(items[1..])
  }

  function FieldTokens(fields: seq<Field>): seq<Token>
    decreases fields, 0
  {
    if fields == [] then [] else [Str(fields[0].key)] + Tokens(fields[0].value) + FieldTokens(fields[1..])
  }

  function Max(a: nat, b: nat): nat { if a < b then b else a }

  /** Nesting of a value: one for a scalar or an empty container. */
  function Height(v: Json): (h: nat)
    ensures h > 0
    decreases v, 1
  {
    match v
    case Array(items) => 1 + ItemsHeight(items)
    case Object(fields) => 1 + FieldsHeight(fields)
    case _ => 1
  }

  function ItemsHeight(items: seq<Json>): nat
    decreases items, 0
  {
    if items == [] then 0 else Max(Height(items[0]), ItemsHeight(items[1..]))
  }

  function FieldsHeight(fields: seq<Field>): nat
    decreases fields, 0
  {
    if fields == [] then 0 else Max(Height(fields[0].value), FieldsHeight(fields[1..]))
  }

  // ----- Reading tokens -----

  /** Whether the current array or object has another element. */
  predicate More(ts: seq<Token>) {
    ts != [] && ts[0] != CloseArray && ts[0] != CloseObject
  }

  function Expect(ts: seq<Token>, wanted: Token): (rest: Option<seq<Token>>)
    ensures rest.Some? ==> |rest.value| < |ts|
  {
    if ts != [] && ts[0] == wanted then Some(ts[1..]) else None
  }

  predicate HasKey(ts: seq<Token>) {
    ts != [] && ts[0].Str?
  }

  /** What is left after one value is skipped; None when it is malformed or too deep. */
  function SkipValue(ts: seq<Token>, depth: nat): (rest: Option<seq<Token>>)
    ensures rest.Some? ==> |rest.value| < |ts|
    decreases |ts|, 0
  {
    if depth >= MAXIMUM_NESTING || ts == [] then None
    else match ts[0]
      case OpenObject => SkipFields(ts[1..], depth + 1)
      case OpenArray => SkipItems(ts[1..], depth + 1)
      case CloseObject => None
      case CloseArray => None
      case Bad => None
      case _ => Some(ts[1..])
  }

  function SkipItems(ts: seq<Token>, depth: nat): (rest: Option<seq<Token>>)
    ensures rest.Some? ==> |rest.value| < |ts|
    decreases |ts|, 1
  {
    if More(ts) then
      var rest := SkipValue(ts, depth);
      if rest.None? then None else SkipItems(rest.value, depth)
    else Expect(ts, CloseArray)
  }

  function SkipFields(ts: seq<Token>, depth: nat): (rest: Option<seq<Token>>)
    ensures rest.Some? ==> |rest.value| < |ts|
    decreases |ts|, 1
  {
    if More(ts) then
      if !HasKey(ts) then None
      else
        var rest := SkipValue(ts[1..], depth);
        if rest.None? then None else SkipFields(rest.value, depth)
    else Expect(ts, CloseObject)
  }

  // ----- Skipping consumes exactly one value -----

  lemma TokensHead(v: Json, rest: seq<Token>)
    ensures More(Tokens(v) + rest) && Tokens(v)[0] != Bad
  {
  }

  /** From depth `d`, a value is skipped exactly when its nesting still fits, and nothing after it is touched. */
  lemma {:induction false} SkipExact(v: Json, rest: seq<Token>, d: nat)
    ensures SkipValue(Tokens(v) + rest, d) == if d + Height(v) <= MAXIMUM_NESTING then Some(rest) else None
    decreases v, 1
  {
    var ts := Tokens(v) + rest;
    match v
    case Array(items) =>
      assert ts[1..] == ItemTokens(items) + [CloseArray] + rest;
      SkipItemsExact(items, rest, d + 1);
    case Object(fields) =>
      assert ts[1..] == FieldTokens(fields) + [CloseObject] + rest;
      SkipFieldsExact(fields, rest, d + 1);
    case _ =>
      assert ts[1..] == rest;
  }

  lemma {:induction false} SkipItemsExact(items: seq<Json>, rest: seq<Token>, d: nat)
    ensures SkipItems(ItemTokens(items) + [CloseArray] + rest, d)
         == if items == [] || d + ItemsHeight(items) <= MAXIMUM_NESTING then Some(rest) else None
    decreases items, 0
  {
    var ts := ItemTokens(items) + [CloseArray] + rest;
    if items == [] {
      assert ts == [CloseArray] + rest;
    } else {
      var tail := ItemTokens(items[1..]) + [CloseArray] + rest;
      assert ts == Tokens(items[0]) + tail;
      TokensHead(items[0], tail);
      SkipExact(items[0], tail, d);
      SkipItemsExact(items[1..], rest, d);
    }
  }

  lemma {:induction false} SkipFieldsExact(fields: seq<Field>, rest: seq<Token>, d: nat)
    ensures SkipFields(FieldTokens(fields) + [CloseObject] + rest, d)
         == if fields == [] || d + FieldsHeight(fields) <= MAXIMUM_NESTING then Some(rest) else None
    decreases fields, 0
  {
    var ts := FieldTokens(fields) + [CloseObject] + rest;
    if fields == [] {
      assert ts == [CloseObject] + rest;
    } else {
      var tail := FieldTokens(fields[1..]) + [CloseObject] + rest;
      assert ts == [Str(fields[0].key)] + (Tokens(fields[0].value) + tail);
      assert ts[1..] == Tokens(fields[0].value) + tail;
      SkipExact(fields[0].value, tail, d);
      SkipFieldsExact(fields[1..], rest, d);
    }
  }

  lemma ItemTokensCons(v: Json, tail: seq<Json>)
    ensures ItemTokens([v] + tail) == Tokens(v) + ItemTokens(tail)
    ensures ItemsHeight([v] + tail) == Max(Height(v), ItemsHeight(tail))
  {
    assert ([v] + tail)[1..] == tail;
  }

  lemma FieldTokensCons(f: Field, tail: seq<Field>)
    ensures FieldTokens([f] + tail) == [Str(f.key)] + Tokens(f.value) + FieldTokens(tail)
    ensures FieldsHeight([f] + tail) == Max(Height(f.value), FieldsHeight(tail))
  {
    assert ([f] + tail)[1..] == tail;
  }

  lemma Frame(open: Token, ts: seq<Token>, inner: seq<Token>, close: Token, rest: seq<Token>)
    requires ts != [] && ts[0] == open && ts[1..] == inner + [close] + rest
    ensures ts == [open] + inner + [close] + rest
  {
    assert ts == [ts[0]] + ts[1..];
  }

  function ScalarOf(t: Token): Json {
    match t
    case Str(s) => Text(s)
    case Num(n) => Numeric(n)
    case Bool(b) => Boolean(b)
    case _ => Nil
  }

  lemma ScalarTokens(ts: seq<Token>)
    requires ts != [] && (ts[0].Str? || ts[0].Num? || ts[0].Bool? || ts[0].Null?)
    ensures Tokens(ScalarOf(ts[0])) + ts[1..] == ts && Height(ScalarOf(ts[0])) == 1
  {
    assert ts == [ts[0]] + ts[1..];
  }

  /** Whatever is skipped was the tokens of a value shallow enough. */
  lemma {:induction false} SkipSound(ts: seq<Token>, d: nat) returns (v: Json)
    requires SkipValue(ts, d).Some?
    ensures ts == Tokens(v) + SkipValue(ts, d).value && d + Height(v) <= MAXIMUM_NESTING
    decreases |ts|, 0
  {
    hide ItemTokens, FieldTokens, SkipItems, SkipFields, ItemsHeight, FieldsHeight;
    if ts[0].OpenObject? {
      var fields := SkipFieldsSound(ts[1..], d + 1);
      Frame(OpenObject, ts, FieldTokens(fields), CloseObject, SkipFields(ts[1..], d + 1).value);
      v := Object(fields);
      FieldsFit(fields, d);
    } else if ts[0].OpenArray? {
      var items := SkipItemsSound(ts[1..], d + 1);
      Frame(OpenArray, ts, ItemTokens(items), CloseArray, SkipItems(ts[1..], d + 1).value);
      v := Array(items);
      ItemsFit(items, d);
    } else {
      v := ScalarOf(ts[0]);
      ScalarTokens(ts);
    }
  }

  lemma ItemsFit(items: seq<Json>, d: nat)
    requires d < MAXIMUM_NESTING && (items == [] || d + 1 + ItemsHeight(items) <= MAXIMUM_NESTING)
    ensures d + 1 + ItemsHeight(items) <= MAXIMUM_NESTING
  {
  }

  lemma FieldsFit(fields: seq<Field>, d: nat)
    requires d < MAXIMUM_NESTING && (fields == [] || d + 1 + FieldsHeight(fields) <= MAXIMUM_NESTING)
    ensures d + 1 + FieldsHeight(fields) <= MAXIMUM_NESTING
  {
  }

  lemma {:induction false} SkipItemsSound(ts: seq<Token>, d: nat) returns (items: seq<Json>)
    requires SkipItems(ts, d).Some?
    ensures ts == ItemTokens(items) + [CloseArray] + SkipItems(ts, d).value
    ensures items == [] || d + ItemsHeight(items) <= MAXIMUM_NESTING
    decreases |ts|, 1
  {
    hide Tokens, Height, SkipValue;
    if More(ts) {
      var v := SkipSound(ts, d);
      var rest := SkipValue(ts, d).value;
      var tail := SkipItemsSound(rest, d);
      items := [v] + tail;
      ItemTokensCons(v, tail);
      hide ItemTokens, ItemsHeight, SkipItems;
      EmptyItems(tail);
    } else {
      items := [];
      assert ts == [CloseArray] + ts[1..];
    }
  }

  lemma EmptyItems(items: seq<Json>)
    ensures items == [] ==> ItemsHeight(items) == 0
  {
  }

  lemma EmptyFields(fields: seq<Field>)
    ensures fields == [] ==> FieldsHeight(fields) == 0
  {
  }

  lemma {:induction false} SkipFieldsSound(ts: seq<Token>, d: nat) returns (fields: seq<Field>)
    requires SkipFields(ts, d).Some?
    ensures ts == FieldTokens(fields) + [CloseObject] + SkipFields(ts, d).value
    ensures fields == [] || d + FieldsHeight(fields) <= MAXIMUM_NESTING
    decreases |ts|, 1
  {
    hide Tokens, Height, SkipValue;
    if More(ts) {
      var v := SkipSound(ts[1..], d);
      var rest := SkipValue(ts[1..], d).value;
      var tail := SkipFieldsSound(rest, d);
      var f := Field(ts[0].text, v);
      fields := [f] + tail;
      FieldTokensCons(f, tail);
      EmptyFields(tail);
      assert ts == [ts[0]] + ts[1..];
      hide FieldTokens, FieldsHeight, SkipFields;
    } else {
      fields := [];
      assert ts == [CloseObject] + ts[1..];
    }
  }
}
