/** The bounded decoder of an embedding response, read token by token and as a tree. */
module EmbeddingDecode {
  import opened Wrappers
  import opened JsonTokens
  import opened JsonLoops

  const MAXIMUM_VECTORS: nat := 256
  const MAXIMUM_DIMENSIONS: nat := 32768

  type Vector = seq<real>
  datatype Item = Item(vector: Vector, index: int)
  datatype Partial = Partial(vector: Option<Vector>, index: Option<int>)
  datatype Usage = Usage(promptTokens: nat, totalTokens: nat, present: bool, hasPrompt: bool, hasTotal: bool)
  datatype Reply = Reply(items: seq<Item>, usage: Usage)

  const NO_USAGE := Usage(0, 0, false, false, false)

  // ----- Scalars: null leaves the target as it was -----

  function ReadFloat(ts: seq<Token>): (p: Parsed<real>)
    ensures p.Done? ==> |p.rest| < |ts|
  {
    if ts == [] then Fail
    else match ts[0]
      case Num(n) => if n.float32.Some? then Done(n.float32.value, ts[1..]) else Fail
      case Null => Done(0.0, ts[1..])
      case _ => Fail
  }

  function FloatOf(v: Json): (r: Option<real>) {
    match v
    case Numeric(n) => n.float32
    case Nil => Some(0.0)
    case _ => None
  }

  /** An index starts at -1, so null is out of range like any index below zero or from 256. */
  function ReadIndex(ts: seq<Token>): (p: Parsed<int>)
    ensures p.Done? ==> |p.rest| < |ts| && 0 <= p.value < MAXIMUM_VECTORS
  {
    if ts != [] && ts[0].Num? && ts[0].number.integer.Some? && 0 <= ts[0].number.integer.value < MAXIMUM_VECTORS
    then Done(ts[0].number.integer.value, ts[1..]) else Fail
  }

  function IndexOf(v: Json): (r: Option<int>) {
    if v.Numeric? && v.number.integer.Some? && 0 <= v.number.integer.value < MAXIMUM_VECTORS
    then v.number.integer else None
  }

  function ReadCount(ts: seq<Token>, before: nat): (p: Parsed<nat>)
    ensures p.Done? ==> |p.rest| < |ts|
  {
    if ts == [] then Fail
    else match ts[0]
      case Num(n) => if n.unsigned.Some? then Done(n.unsigned.value, ts[1..]) else Fail
      case Null => Done(before, ts[1..])
      case _ => Fail
  }

  function CountOf(v: Json, before: nat): (r: Option<nat>) {
    match v
    case Numeric(n) => n.unsigned
    case Nil => Some(before)
    case _ => None
  }

  lemma FloatAgrees()
    ensures Consumes(ReadFloat) && ReadAgrees(ReadFloat, FloatOf)
  {
    forall v, rest
      ensures ReadFloat(Tokens(v) + rest) == FromTree(FloatOf(v), rest)
    {
      ScalarRest(v, rest);
    }
  }

  lemma ScalarRest(v: Json, rest: seq<Token>)
    ensures var ts := Tokens(v) + rest;
      && ts != [] && (v.Numeric? <==> ts[0].Num?) && (v.Nil? <==> ts[0].Null?)
      && (v.Numeric? ==> ts[0].number == v.number && ts[1..] == rest) && (v.Nil? ==> ts[1..] == rest)
  {
    hide ItemTokens, FieldTokens;
    var ts := Tokens(v) + rest;
    if v.Numeric? || v.Nil? {
      assert |Tokens(v)| == 1 && ts[1..] == rest;
    }
  }

  lemma FloatSound()
    ensures ReadSound(ReadFloat, FloatOf)
  {
    forall ts | ReadFloat(ts).Done?
      ensures exists v :: IsTree(ts, v, FloatOf(v), ReadFloat(ts))
    {
      ScalarTokens(ts);
      assert IsTree(ts, ScalarOf(ts[0]), FloatOf(ScalarOf(ts[0])), ReadFloat(ts));
    }
  }

  // ----- Vectors -----

  function ReadVector(ts: seq<Token>): (p: Parsed<Vector>)
    ensures p.Done? ==> |p.rest| < |ts|
  {
    FloatAgrees();
    ReadArray(ts, ReadFloat, MAXIMUM_DIMENSIONS)
  }

  function VectorOf(v: Json): (r: Option<Vector>) {
    ArrayOf(v, FloatOf, MAXIMUM_DIMENSIONS)
  }

  // ----- One item -----

  function ItemStep(key: string, ts: seq<Token>, p: Partial): (r: Parsed<Partial>)
    ensures r.Done? ==> |r.rest| < |ts|
  {
    if key == "embedding" then
      if p.vector.Some? then Fail
      else match ReadVector(ts)
        case Fail => Fail
        case Done(vector, rest) => Done(p.(vector := Some(vector)), rest)
    else if key == "index" then
      if p.index.Some? then Fail
      else match ReadIndex(ts)
        case Fail => Fail
        case Done(index, rest) => Done(p.(index := Some(index)), rest)
    else match SkipValue(ts, 0)
      case None => Fail
      case Some(rest) => Done(p, rest)
  }

  function ItemTreeStep(key: string, v: Json, p: Partial): (r: Option<Partial>) {
    if key == "embedding" then
      if p.vector.Some? || VectorOf(v).None? then None else Some(p.(vector := VectorOf(v)))
    else if key == "index" then
      if p.index.Some? || IndexOf(v).None? then None else Some(p.(index := IndexOf(v)))
    else if Height(v) <= MAXIMUM_NESTING then Some(p) else None
  }

  function Whole(p: Partial): (r: Option<Item>) {
    if p.vector.Some? && p.index.Some? then Some(Item(p.vector.value, p.index.value)) else None
  }

  const NO_FIELDS := Partial(None, None)

  lemma ItemStepShrinks()
    ensures Shrinks(ItemStep)
  {
  }

  function ReadItem(ts: seq<Token>): (r: Parsed<Item>)
    ensures r.Done? ==> |r.rest| < |ts|
  {
    ItemStepShrinks();
    match ReadObject(ts, ItemStep, NO_FIELDS)
    case Fail => Fail
    case Done(p, rest) => FromTree(Whole(p), rest)
  }

  function ItemOf(v: Json): (r: Option<Item>) {
    match ObjectOf(v, ItemTreeStep, NO_FIELDS)
    case None => None
    case Some(p) => Whole(p)
  }

  function ReadItems(ts: seq<Token>): (r: Parsed<seq<Item>>)
    ensures r.Done? ==> |r.rest| < |ts|
  {
    assert Consumes(ReadItem);
    ReadArray(ts, ReadItem, MAXIMUM_VECTORS)
  }

  function ItemsOf(v: Json): (r: Option<seq<Item>>) {
    ArrayOf(v, ItemOf, MAXIMUM_VECTORS)
  }

  // ----- Usage -----

  function UsageStep(key: string, ts: seq<Token>, u: Usage): (r: Parsed<Usage>)
    ensures r.Done? ==> |r.rest| < |ts|
  {
    if key == "prompt_tokens" then
      match ReadCount(ts, u.promptTokens)
      case Fail => Fail
      case Done(n, rest) => Done(u.(promptTokens := n, hasPrompt := true), rest)
    else if key == "total_tokens" then
      match ReadCount(ts, u.totalTokens)
      case Fail => Fail
      case Done(n, rest) => Done(u.(totalTokens := n, hasTotal := true), rest)
    else match SkipValue(ts, 0)
      case None => Fail
      case Some(rest) => Done(u, rest)
  }

  function UsageTreeStep(key: string, v: Json, u: Usage): (r: Option<Usage>) {
    if key == "prompt_tokens" then
      if CountOf(v, u.promptTokens).None? then None
      else Some(u.(promptTokens := CountOf(v, u.promptTokens).value, hasPrompt := true))
    else if key == "total_tokens" then
      if CountOf(v, u.totalTokens).None? then None
      else Some(u.(totalTokens := CountOf(v, u.totalTokens).value, hasTotal := true))
    else if Height(v) <= MAXIMUM_NESTING then Some(u) else None
  }

  lemma UsageStepShrinks()
    ensures Shrinks(UsageStep)
  {
  }

  function ReadUsage(ts: seq<Token>): (r: Parsed<Usage>)
    ensures r.Done? ==> |r.rest| < |ts|
  {
    UsageStepShrinks();
    ReadObject(ts, UsageStep, NO_USAGE)
  }

  function UsageOf(v: Json): (r: Option<Usage>) {
    ObjectOf(v, UsageTreeStep, NO_USAGE)
  }

  // ----- The response -----

  function ReplyStep(key: string, ts: seq<Token>, s: Reply): (r: Parsed<Reply>)
    ensures r.Done? ==> |r.rest| < |ts|
  {
    if key == "data" then
      match ReadItems(ts)
      case Fail => Fail
      case Done(items, rest) => Done(s.(items := items), rest)
    else if key == "usage" then
      match ReadUsage(ts)
      case Fail => Fail
      case Done(u, rest) => Done(s.(usage := u.(present := true)), rest)
    else match SkipValue(ts, 0)
      case None => Fail
      case Some(rest) => Done(s, rest)
  }

  function ReplyTreeStep(key: string, v: Json, s: Reply): (r: Option<Reply>) {
    if key == "data" then
      if ItemsOf(v).None? then None else Some(s.(items := ItemsOf(v).value))
    else if key == "usage" then
      if UsageOf(v).None? then None else Some(s.(usage := UsageOf(v).value.(present := true)))
    else if Height(v) <= MAXIMUM_NESTING then Some(s) else None
  }

  const EMPTY_REPLY := Reply([], NO_USAGE)

  lemma ReplyStepShrinks()
    ensures Shrinks(ReplyStep)
  {
  }

  /** The whole document; `cutOff` says that the byte limit ended the input. */
  function ReadReply(ts: seq<Token>, cutOff: bool): (r: Option<Reply>) {
    ReplyStepShrinks();
    match ReadObject(ts, ReplyStep, EMPTY_REPLY)
    case Fail => None
    case Done(s, rest) => if rest == [] && !cutOff then Some(s) else None
  }

  function ReplyOf(v: Json): (r: Option<Reply>) {
    ObjectOf(v, ReplyTreeStep, EMPTY_REPLY)
  }

  // ----- Stream and tree agree -----

  lemma VectorAgrees(v: Json, rest: seq<Token>)
    ensures ReadVector(Tokens(v) + rest) == FromTree(VectorOf(v), rest)
  {
    hide ReadArray, ArrayOf, ReadFloat, FloatOf;
    FloatAgrees();
    ArrayAgrees(v, rest, ReadFloat, FloatOf, MAXIMUM_DIMENSIONS);
  }

  lemma IndexAgrees(v: Json, rest: seq<Token>)
    ensures ReadIndex(Tokens(v) + rest) == FromTree(IndexOf(v), rest)
  {
    hide Tokens;
    ScalarRest(v, rest);
  }

  lemma CountAgrees(v: Json, rest: seq<Token>, before: nat)
    ensures ReadCount(Tokens(v) + rest, before) == FromTree(CountOf(v, before), rest)
  {
    hide Tokens;
    ScalarRest(v, rest);
  }

  lemma ItemStepAgrees(key: string, v: Json, rest: seq<Token>, p: Partial)
    ensures ItemStep(key, Tokens(v) + rest, p) == FromTree(ItemTreeStep(key, v, p), rest)
  {
    hide Tokens, ReadVector, VectorOf, ReadIndex, IndexOf, SkipValue, Height;
    VectorAgrees(v, rest);
    IndexAgrees(v, rest);
    SkipExact(v, rest, 0);
  }

  lemma UsageStepAgrees(key: string, v: Json, rest: seq<Token>, u: Usage)
    ensures UsageStep(key, Tokens(v) + rest, u) == FromTree(UsageTreeStep(key, v, u), rest)
  {
    hide Tokens, ReadCount, CountOf, SkipValue, Height;
    CountAgrees(v, rest, u.promptTokens);
    CountAgrees(v, rest, u.totalTokens);
    SkipExact(v, rest, 0);
  }

  lemma ItemAgrees(v: Json, rest: seq<Token>)
    ensures ReadItem(Tokens(v) + rest) == FromTree(ItemOf(v), rest)
  {
    hide Tokens, ItemStep, ItemTreeStep, ReadObject, ObjectOf;
    ItemStepShrinks();
    assert StepAgrees(ItemStep, ItemTreeStep) by {
      forall key, v, rest, s {
        ItemStepAgrees(key, v, rest, s);
      }
    }
    ObjectAgrees(v, rest, ItemStep, ItemTreeStep, NO_FIELDS);
  }

  lemma ItemsAgrees(v: Json, rest: seq<Token>)
    ensures ReadItems(Tokens(v) + rest) == FromTree(ItemsOf(v), rest)
  {
    hide Tokens, ReadItem, ItemOf, ReadArray, ArrayOf;
    assert ReadAgrees(ReadItem, ItemOf) by {
      forall v, rest {
        ItemAgrees(v, rest);
      }
    }
    ArrayAgrees(v, rest, ReadItem, ItemOf, MAXIMUM_VECTORS);
  }

  lemma UsageAgrees(v: Json, rest: seq<Token>)
    ensures ReadUsage(Tokens(v) + rest) == FromTree(UsageOf(v), rest)
  {
    hide Tokens, UsageStep, UsageTreeStep, ReadObject, ObjectOf;
    UsageStepShrinks();
    assert StepAgrees(UsageStep, UsageTreeStep) by {
      forall key, v, rest, s {
        UsageStepAgrees(key, v, rest, s);
      }
    }
    ObjectAgrees(v, rest, UsageStep, UsageTreeStep, NO_USAGE);
  }

  lemma ReplyStepAgrees(key: string, v: Json, rest: seq<Token>, s: Reply)
    ensures ReplyStep(key, Tokens(v) + rest, s) == FromTree(ReplyTreeStep(key, v, s), rest)
  {
    hide Tokens, ReadItems, ItemsOf, ReadUsage, UsageOf, SkipValue, Height;
    ItemsAgrees(v, rest);
    UsageAgrees(v, rest);
    SkipExact(v, rest, 0);
  }

  /** Decoding the tokens of a document gives what the document says; anything after it is refused. */
  lemma ReplyAgrees(v: Json, rest: seq<Token>, cutOff: bool)
    ensures ReadReply(Tokens(v) + rest, cutOff) == if rest == [] && !cutOff then ReplyOf(v) else None
  {
    hide Tokens, ReplyStep, ReplyTreeStep, ReadObject, ObjectOf;
    ReplyStepShrinks();
    assert StepAgrees(ReplyStep, ReplyTreeStep) by {
      forall key, v, rest, s {
        ReplyStepAgrees(key, v, rest, s);
      }
    }
    ObjectAgrees(v, rest, ReplyStep, ReplyTreeStep, EMPTY_REPLY);
  }

  // ----- Whatever is accepted is a document -----

  lemma VectorSound(ts: seq<Token>) returns (v: Json)
    requires ReadVector(ts).Done?
    ensures IsTree(ts, v, VectorOf(v), ReadVector(ts))
  {
    hide ReadArray, ArrayOf, ReadFloat, FloatOf, IsTree;
    FloatAgrees();
    FloatSound();
    v := ArraySound(ts, ReadFloat, FloatOf, MAXIMUM_DIMENSIONS);
  }

  lemma ScalarSound(ts: seq<Token>, before: nat)
    ensures ReadIndex(ts).Done? ==> IsTree(ts, ScalarOf(ts[0]), IndexOf(ScalarOf(ts[0])), ReadIndex(ts))
    ensures ReadCount(ts, before).Done? ==>
      IsTree(ts, ScalarOf(ts[0]), CountOf(ScalarOf(ts[0]), before), ReadCount(ts, before))
  {
    hide Tokens;
    if ReadIndex(ts).Done? || ReadCount(ts, before).Done? {
      ScalarTokens(ts);
    }
  }

  lemma ItemStepSound(key: string, ts: seq<Token>, p: Partial) returns (v: Json)
    requires ItemStep(key, ts, p).Done?
    ensures IsTree(ts, v, ItemTreeStep(key, v, p), ItemStep(key, ts, p))
  {
    hide Tokens, ReadVector, VectorOf, ReadIndex, IndexOf, SkipValue, Height;
    if key == "embedding" {
      v := VectorSound(ts);
    } else if key == "index" {
      ScalarSound(ts, 0);
      v := ScalarOf(ts[0]);
    } else {
      v := SkipSound(ts, 0);
    }
  }

  lemma UsageStepSound(key: string, ts: seq<Token>, u: Usage) returns (v: Json)
    requires UsageStep(key, ts, u).Done?
    ensures IsTree(ts, v, UsageTreeStep(key, v, u), UsageStep(key, ts, u))
  {
    hide Tokens, ReadCount, CountOf, SkipValue, Height;
    if key == "prompt_tokens" {
      ScalarSound(ts, u.promptTokens);
      v := ScalarOf(ts[0]);
    } else if key == "total_tokens" {
      ScalarSound(ts, u.totalTokens);
      v := ScalarOf(ts[0]);
    } else {
      v := SkipSound(ts, 0);
    }
  }

  lemma ItemSound(ts: seq<Token>) returns (v: Json)
    requires ReadItem(ts).Done?
    ensures IsTree(ts, v, ItemOf(v), ReadItem(ts))
  {
    hide Tokens, ItemStep, ItemTreeStep, ReadObject, ObjectOf;
    ItemStepShrinks();
    assert StepSound(ItemStep, ItemTreeStep) by {
      forall key, ts, s | ItemStep(key, ts, s).Done?
        ensures exists v :: IsTree(ts, v, ItemTreeStep(key, v, s), ItemStep(key, ts, s))
      {
        var v := ItemStepSound(key, ts, s);
      }
    }
    v := ObjectSound(ts, ItemStep, ItemTreeStep, NO_FIELDS);
  }

  lemma ItemsSound(ts: seq<Token>) returns (v: Json)
    requires ReadItems(ts).Done?
    ensures IsTree(ts, v, ItemsOf(v), ReadItems(ts))
  {
    hide Tokens, ReadItem, ItemOf, ReadArray, ArrayOf, IsTree;
    assert ReadSound(ReadItem, ItemOf) by {
      forall ts | ReadItem(ts).Done?
        ensures exists v :: IsTree(ts, v, ItemOf(v), ReadItem(ts))
      {
        var v := ItemSound(ts);
      }
    }
    v := ArraySound(ts, ReadItem, ItemOf, MAXIMUM_VECTORS);
  }

  lemma UsageSound(ts: seq<Token>) returns (v: Json)
    requires ReadUsage(ts).Done?
    ensures IsTree(ts, v, UsageOf(v), ReadUsage(ts))
  {
    hide Tokens, UsageStep, UsageTreeStep, ReadObject, ObjectOf, IsTree;
    UsageStepShrinks();
    assert StepSound(UsageStep, UsageTreeStep) by {
      forall key, ts, s | UsageStep(key, ts, s).Done?
        ensures exists v :: IsTree(ts, v, UsageTreeStep(key, v, s), UsageStep(key, ts, s))
      {
        var v := UsageStepSound(key, ts, s);
      }
    }
    v := ObjectSound(ts, UsageStep, UsageTreeStep, NO_USAGE);
  }

  lemma ReplyStepSound(key: string, ts: seq<Token>, s: Reply) returns (v: Json)
    requires ReplyStep(key, ts, s).Done?
    ensures IsTree(ts, v, ReplyTreeStep(key, v, s), ReplyStep(key, ts, s))
  {
    hide Tokens, ReadItems, ItemsOf, ReadUsage, UsageOf, SkipValue, Height;
    if key == "data" {
      v := ItemsSound(ts);
    } else if key == "usage" {
      v := UsageSound(ts);
    } else {
      v := SkipSound(ts, 0);
    }
  }

  /** A token stream is accepted only if it is exactly one document, and then with that document's content. */
  lemma ReplySound(ts: seq<Token>, cutOff: bool) returns (v: Json)
    requires ReadReply(ts, cutOff).Some?
    ensures ts == Tokens(v) && !cutOff && ReplyOf(v) == ReadReply(ts, cutOff)
  {
    hide Tokens, ReplyStep, ReplyTreeStep, ReadObject, ObjectOf;
    ReplyStepShrinks();
    assert StepSound(ReplyStep, ReplyTreeStep) by {
      forall key, ts, s | ReplyStep(key, ts, s).Done?
        ensures exists v :: IsTree(ts, v, ReplyTreeStep(key, v, s), ReplyStep(key, ts, s))
      {
        var v := ReplyStepSound(key, ts, s);
      }
    }
    v := ObjectSound(ts, ReplyStep, ReplyTreeStep, EMPTY_REPLY);
    assert Tokens(v) + [] == Tokens(v);
  }

  // ----- An item, said without an order of reading -----

  /** The values given under one key, in order. */
  function Given(fields: seq<Field>, key: string): (values: seq<Json>) {
    if fields == [] then []
    else (if fields[0].key == key then [fields[0].value] else []) + Given(fields[1..], key)
  }

  /** Exactly one embedding and one index, both well-formed; everything else merely shallow enough. */
  ghost predicate IsItem(v: Json, item: Item) {
    && v.Object?
    && OthersShallow(v.fields, "embedding", "index")
    && |Given(v.fields, "embedding")| == 1 && VectorOf(Given(v.fields, "embedding")[0]) == Some(item.vector)
    && |Given(v.fields, "index")| == 1 && IndexOf(Given(v.fields, "index")[0]) == Some(item.index)
  }

  /** What the remaining fields must supply, given what was read already. */
  ghost predicate Supplies<T>(before: Option<T>, given: seq<Json>, read: TreeReader<T>, after: Option<T>) {
    if before.Some? then given == [] && after == before
    else if given == [] then after.None?
    else |given| == 1 && read(given[0]).Some? && after == read(given[0])
  }

  /** Whatever stands under other keys than these two is shallow enough to be skipped. */
  ghost predicate OthersShallow(fields: seq<Field>, a: string, b: string) {
    forall i :: 0 <= i < |fields| && fields[i].key != a && fields[i].key != b ==> Height(fields[i].value) <= MAXIMUM_NESTING
  }

  lemma {:induction false} FoldIsSupply(fields: seq<Field>, p: Partial, q: Partial)
    ensures FoldFields(fields, ItemTreeStep, p) == Some(q) <==>
      && OthersShallow(fields, "embedding", "index")
      && Supplies(p.vector, Given(fields, "embedding"), VectorOf, q.vector)
      && Supplies(p.index, Given(fields, "index"), IndexOf, q.index)
    decreases |fields|
  {
    hide VectorOf, IndexOf, Height;
    if fields != [] {
      var f := fields[0];
      var next := ItemTreeStep(f.key, f.value, p);
      ShallowCons(fields, "embedding", "index");
      if next.Some? {
        FoldIsSupply(fields[1..], next.value, q);
      }
      hide OthersShallow, FoldFields;
      assert Given(fields, "embedding") == (if f.key == "embedding" then [f.value] else []) + Given(fields[1..], "embedding");
      assert Given(fields, "index") == (if f.key == "index" then [f.value] else []) + Given(fields[1..], "index");
      hide Given;
    }
  }

  lemma ShallowCons(fields: seq<Field>, a: string, b: string)
    requires fields != []
    ensures OthersShallow(fields, a, b) <==>
      && (fields[0].key != a && fields[0].key != b ==> Height(fields[0].value) <= MAXIMUM_NESTING)
      && OthersShallow(fields[1..], a, b)
  {
    hide Height;
    assert forall i :: 0 < i < |fields| ==> fields[i] == fields[1..][i - 1];
  }

  /** The reading order of fields does not matter: an item is read exactly when the object is one. */
  lemma ItemIsDeclarative(v: Json, item: Item)
    ensures ItemOf(v) == Some(item) <==> IsItem(v, item)
  {
    hide VectorOf, IndexOf, Height, Given, FoldFields;
    if v.Object? {
      FoldIsSupply(v.fields, NO_FIELDS, Partial(Some(item.vector), Some(item.index)));
      if ObjectOf(v, ItemTreeStep, NO_FIELDS).Some? {
        FoldIsSupply(v.fields, NO_FIELDS, ObjectOf(v, ItemTreeStep, NO_FIELDS).value);
      }
    }
  }
}
