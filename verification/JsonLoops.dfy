/** The two loops of a token decoder, over an array and over an object, and the tree folds they compute. */
module JsonLoops {
  import opened Wrappers
  import opened JsonTokens

  datatype Parsed<+T> = Fail | Done(value: T, rest: seq<Token>)

  /** Reads one element, consuming something. */
  type Reader<!E> = seq<Token> -> Parsed<E>
  /** Reads the value of one field into the state gathered so far. */
  type FieldStep<!S> = (string, seq<Token>, S) -> Parsed<S>

  ghost predicate Consumes<E>(read: Reader<E>) {
    forall ts :: read(ts).Done? ==> |read(ts).rest| < |ts|
  }

  ghost predicate Shrinks<S(!new)>(step: FieldStep<S>) {
    forall key, ts, s :: step(key, ts, s).Done? ==> |step(key, ts, s).rest| < |ts|
  }

  /** The rest of an array, at most `limit` elements in all. */
  function ArrayTail<E>(ts: seq<Token>, read: Reader<E>, limit: nat, acc: seq<E>): (p: Parsed<seq<E>>)
    requires Consumes(read)
    ensures p.Done? ==> |p.rest| < |ts|
    decreases |ts|
  {
    if More(ts) then
      if |acc| == limit then Fail
      else
        var r := read(ts);
        if r.Fail? then Fail else ArrayTail(r.rest, read, limit, acc + [r.value])
    else
      var rest := Expect(ts, CloseArray);
      if rest.None? then Fail else Done(acc, rest.value)
  }

  function ReadArray<E>(ts: seq<Token>, read: Reader<E>, limit: nat): (p: Parsed<seq<E>>)
    requires Consumes(read)
    ensures p.Done? ==> |p.rest| < |ts|
  {
    var rest := Expect(ts, OpenArray);
    if rest.None? then Fail else ArrayTail(rest.value, read, limit, [])
  }

  function ObjectTail<S(!new)>(ts: seq<Token>, step: FieldStep<S>, s: S): (p: Parsed<S>)
    requires Shrinks(step)
    ensures p.Done? ==> |p.rest| < |ts|
    decreases |ts|
  {
    if More(ts) then
      if !HasKey(ts) then Fail
      else
        var r := step(ts[0].text, ts[1..], s);
        if r.Fail? then Fail else ObjectTail(r.rest, step, r.value)
    else
      var rest := Expect(ts, CloseObject);
      if rest.None? then Fail else Done(s, rest.value)
  }

  function ReadObject<S(!new)>(ts: seq<Token>, step: FieldStep<S>, s: S): (p: Parsed<S>)
    requires Shrinks(step)
    ensures p.Done? ==> |p.rest| < |ts|
  {
    var rest := Expect(ts, OpenObject);
    if rest.None? then Fail else ObjectTail(rest.value, step, s)
  }

  // ----- The same on trees -----

  type TreeReader<!E> = Json -> Option<E>
  type TreeStep<!S> = (string, Json, S) -> Option<S>

  function MapItems<E>(items: seq<Json>, read: TreeReader<E>): (r: Option<seq<E>>)
    ensures r.Some? ==> |r.value| == |items| && forall i :: 0 <= i < |items| ==> read(items[i]) == Some(r.value[i])
    ensures r.None? ==> exists i :: 0 <= i < |items| && read(items[i]).None?
  {
    if items == [] then Some([])
    else
      var head, tail := read(items[0]), MapItems(items[1..], read);
      if head.None? || tail.None? then
        assert tail.None? ==> exists i :: 0 <= i < |items[1..]| && read(items[1..][i]).None?;
        None
      else Some([head.value] + tail.value)
  }

  function FoldFields<S>(fields: seq<Field>, step: TreeStep<S>, s: S): (r: Option<S>) {
    if fields == [] then Some(s)
    else
      var next := step(fields[0].key, fields[0].value, s);
      if next.None? then None else FoldFields(fields[1..], step, next.value)
  }

  function ArrayOf<E>(v: Json, read: TreeReader<E>, limit: nat): (r: Option<seq<E>>) {
    if v.Array? && |v.items| <= limit then MapItems(v.items, read) else None
  }

  function ObjectOf<S>(v: Json, step: TreeStep<S>, s: S): (r: Option<S>) {
    if v.Object? then FoldFields(v.fields, step, s) else None
  }

  function FromTree<T>(r: Option<T>, rest: seq<Token>): Parsed<T> {
    if r.None? then Fail else Done(r.value, rest)
  }

  // ----- On the tokens of a tree, the loops compute the folds -----

  ghost predicate ReadAgrees<E>(read: Reader<E>, tree: TreeReader<E>) {
    forall v, rest :: read(Tokens(v) + rest) == FromTree(tree(v), rest)
  }

  ghost predicate StepAgrees<S(!new)>(step: FieldStep<S>, tree: TreeStep<S>) {
    forall key, v, rest, s :: step(key, Tokens(v) + rest, s) == FromTree(tree(key, v, s), rest)
  }

  lemma {:induction false} ArrayTailAgrees<E>(items: seq<Json>, rest: seq<Token>, read: Reader<E>, tree: TreeReader<E>,
                                              limit: nat, acc: seq<E>)
    requires Consumes(read) && ReadAgrees(read, tree) && |acc| <= limit
    ensures ArrayTail(ItemTokens(items) + [CloseArray] + rest, read, limit, acc)
         == if |acc| + |items| <= limit && MapItems(items, tree).Some?
            then Done(acc + MapItems(items, tree).value, rest) else Fail
    decreases |items|
  {
    hide Tokens;
    var ts := ItemTokens(items) + [CloseArray] + rest;
    if items == [] {
      assert ts == [CloseArray] + rest;
      assert MapItems(items, tree).value == [] && acc + [] == acc;
    } else {
      var tail := ItemTokens(items[1..]) + [CloseArray] + rest;
      assert ts == Tokens(items[0]) + tail;
      TokensHead(items[0], tail);
      if |acc| < limit && tree(items[0]).Some? {
        var x := tree(items[0]).value;
        ArrayTailAgrees(items[1..], rest, read, tree, limit, acc + [x]);
        AppendShift(acc, x, items[1..], tree);
      }
    }
  }

  lemma AppendShift<E>(acc: seq<E>, x: E, items: seq<Json>, tree: TreeReader<E>)
    ensures MapItems(items, tree).Some? ==> acc + [x] + MapItems(items, tree).value == acc + ([x] + MapItems(items, tree).value)
  {
  }

  lemma {:induction false} ObjectTailAgrees<S(!new)>(fields: seq<Field>, rest: seq<Token>, step: FieldStep<S>, tree: TreeStep<S>, s: S)
    requires Shrinks(step) && StepAgrees(step, tree)
    ensures ObjectTail(FieldTokens(fields) + [CloseObject] + rest, step, s) == FromTree(FoldFields(fields, tree, s), rest)
    decreases |fields|
  {
    hide Tokens;
    var ts := FieldTokens(fields) + [CloseObject] + rest;
    if fields == [] {
      assert ts == [CloseObject] + rest;
    } else {
      var tail := FieldTokens(fields[1..]) + [CloseObject] + rest;
      assert ts == [Str(fields[0].key)] + (Tokens(fields[0].value) + tail);
      assert ts[1..] == Tokens(fields[0].value) + tail;
      var next := tree(fields[0].key, fields[0].value, s);
      if next.Some? {
        ObjectTailAgrees(fields[1..], rest, step, tree, next.value);
      }
    }
  }

  lemma EmptyPrefix<E>(r: Option<seq<E>>)
    ensures r.Some? ==> [] + r.value == r.value
  {
  }

  lemma ArrayAgrees<E>(v: Json, rest: seq<Token>, read: Reader<E>, tree: TreeReader<E>, limit: nat)
    requires Consumes(read) && ReadAgrees(read, tree)
    ensures ReadArray(Tokens(v) + rest, read, limit) == FromTree(ArrayOf(v, tree, limit), rest)
  {
    hide ArrayTail, ItemTokens, FieldTokens, MapItems;
    if v.Array? {
      var inner := ItemTokens(v.items) + [CloseArray] + rest;
      assert (Tokens(v) + rest)[1..] == inner;
      ArrayTailAgrees(v.items, rest, read, tree, limit, []);
      EmptyPrefix(MapItems(v.items, tree));
    }
  }

  lemma ObjectAgrees<S(!new)>(v: Json, rest: seq<Token>, step: FieldStep<S>, tree: TreeStep<S>, s: S)
    requires Shrinks(step) && StepAgrees(step, tree)
    ensures ReadObject(Tokens(v) + rest, step, s) == FromTree(ObjectOf(v, tree, s), rest)
  {
    hide ObjectTail, ItemTokens, FieldTokens, FoldFields;
    if v.Object? {
      var inner := FieldTokens(v.fields) + [CloseObject] + rest;
      assert (Tokens(v) + rest)[1..] == inner;
      ObjectTailAgrees(v.fields, rest, step, tree, s);
    }
  }

  // ----- Whatever the loops accept was the tokens of a tree -----

  ghost predicate IsTree<T>(ts: seq<Token>, v: Json, r: Option<T>, p: Parsed<T>) {
    p.Done? ==> ts == Tokens(v) + p.rest && r == Some(p.value)
  }

  ghost predicate ReadSound<E>(read: Reader<E>, tree: TreeReader<E>) {
    forall ts :: read(ts).Done? ==> exists v :: IsTree(ts, v, tree(v), read(ts))
  }

  ghost predicate StepSound<S(!new)>(step: FieldStep<S>, tree: TreeStep<S>) {
    forall key, ts, s :: step(key, ts, s).Done? ==> exists v :: IsTree(ts, v, tree(key, v, s), step(key, ts, s))
  }

  lemma ElementTree<E>(ts: seq<Token>, read: Reader<E>, tree: TreeReader<E>) returns (v: Json)
    requires ReadSound(read, tree) && read(ts).Done?
    ensures ts == Tokens(v) + read(ts).rest && tree(v) == Some(read(ts).value)
  {
    hide Tokens;
    v :| IsTree(ts, v, tree(v), read(ts));
  }

  lemma {:induction false} ArrayTailSound<E>(ts: seq<Token>, read: Reader<E>, tree: TreeReader<E>, limit: nat, acc: seq<E>)
    returns (items: seq<Json>)
    requires Consumes(read) && ReadSound(read, tree) && |acc| <= limit && ArrayTail(ts, read, limit, acc).Done?
    ensures var p := ArrayTail(ts, read, limit, acc);
      && ts == ItemTokens(items) + [CloseArray] + p.rest && |acc| + |items| <= limit
      && MapItems(items, tree).Some? && p.value == acc + MapItems(items, tree).value
    decreases |ts|
  {
    hide Tokens, ReadSound, ItemTokens, MapItems;
    if More(ts) {
      var r := read(ts);
      var v := ElementTree(ts, read, tree);
      var tail := ArrayTailSound(r.rest, read, tree, limit, acc + [r.value]);
      items := [v] + tail;
      ItemTokensCons(v, tail);
      MapCons(v, tail, tree);
      AppendShift(acc, r.value, tail, tree);
      hide ArrayTail;
    } else {
      items := [];
      NoItems(tree);
      assert ts == [CloseArray] + ts[1..];
    }
  }

  lemma NoItems<E>(tree: TreeReader<E>)
    ensures ItemTokens([]) == [] && MapItems([], tree) == Some([])
  {
  }

  lemma MapCons<E>(v: Json, tail: seq<Json>, tree: TreeReader<E>)
    requires tree(v).Some? && MapItems(tail, tree).Some?
    ensures MapItems([v] + tail, tree) == Some([tree(v).value] + MapItems(tail, tree).value)
  {
    assert ([v] + tail)[1..] == tail;
  }

  lemma FieldTree<S(!new)>(ts: seq<Token>, step: FieldStep<S>, tree: TreeStep<S>, s: S) returns (f: Field)
    requires StepSound(step, tree) && HasKey(ts) && step(ts[0].text, ts[1..], s).Done?
    ensures var r := step(ts[0].text, ts[1..], s);
      f.key == ts[0].text && ts == [Str(f.key)] + Tokens(f.value) + r.rest && tree(f.key, f.value, s) == Some(r.value)
  {
    hide Tokens;
    var r := step(ts[0].text, ts[1..], s);
    var v :| IsTree(ts[1..], v, tree(ts[0].text, v, s), r);
    f := Field(ts[0].text, v);
    assert ts == [ts[0]] + ts[1..];
  }

  lemma FoldCons<S>(f: Field, tail: seq<Field>, tree: TreeStep<S>, s: S)
    requires tree(f.key, f.value, s).Some?
    ensures FoldFields([f] + tail, tree, s) == FoldFields(tail, tree, tree(f.key, f.value, s).value)
  {
    assert ([f] + tail)[1..] == tail;
  }

  lemma NoFields<S>(tree: TreeStep<S>, s: S)
    ensures FieldTokens([]) == [] && FoldFields([], tree, s) == Some(s)
  {
  }

  lemma {:induction false} ObjectTailSound<S(!new)>(ts: seq<Token>, step: FieldStep<S>, tree: TreeStep<S>, s: S)
    returns (fields: seq<Field>)
    requires Shrinks(step) && StepSound(step, tree) && ObjectTail(ts, step, s).Done?
    ensures var p := ObjectTail(ts, step, s);
      ts == FieldTokens(fields) + [CloseObject] + p.rest && FoldFields(fields, tree, s) == Some(p.value)
    decreases |ts|
  {
    hide Tokens, StepSound, FieldTokens, FoldFields;
    if More(ts) {
      var r := step(ts[0].text, ts[1..], s);
      var f := FieldTree(ts, step, tree, s);
      var tail := ObjectTailSound(r.rest, step, tree, r.value);
      fields := [f] + tail;
      FieldTokensCons(f, tail);
      FoldCons(f, tail, tree, s);
      hide ObjectTail;
    } else {
      fields := [];
      NoFields(tree, s);
      assert ts == [CloseObject] + ts[1..];
    }
  }

  lemma ArraySound<E>(ts: seq<Token>, read: Reader<E>, tree: TreeReader<E>, limit: nat) returns (v: Json)
    requires Consumes(read) && ReadSound(read, tree) && ReadArray(ts, read, limit).Done?
    ensures IsTree(ts, v, ArrayOf(v, tree, limit), ReadArray(ts, read, limit))
  {
    hide ArrayTail, ItemTokens, MapItems;
    var items := ArrayTailSound(ts[1..], read, tree, limit, []);
    v := Array(items);
    EmptyPrefix(MapItems(items, tree));
    Frame(OpenArray, ts, ItemTokens(items), CloseArray, ReadArray(ts, read, limit).rest);
  }

  lemma ObjectSound<S(!new)>(ts: seq<Token>, step: FieldStep<S>, tree: TreeStep<S>, s: S) returns (v: Json)
    requires Shrinks(step) && StepSound(step, tree) && ReadObject(ts, step, s).Done?
    ensures IsTree(ts, v, ObjectOf(v, tree, s), ReadObject(ts, step, s))
  {
    hide ObjectTail, FieldTokens, FoldFields;
    var fields := ObjectTailSound(ts[1..], step, tree, s);
    v := Object(fields);
    Frame(OpenObject, ts, FieldTokens(fields), CloseObject, ReadObject(ts, step, s).rest);
  }
}
