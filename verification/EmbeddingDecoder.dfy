/** The decoder as it runs: a token cursor that every step advances, and the placement of vectors by index. */
module EmbeddingDecoder {
  import opened Wrappers
  import opened JsonTokens
  import opened JsonLoops
  import opened EmbeddingDecode
  import opened EmbeddingReply

  class Decoder {
    /** The tokens not read yet. */
    var unread: seq<Token>

    constructor (tokens: seq<Token>)
      ensures unread == tokens
    {
      unread := tokens;
    }

    /** `r` is what parsing `before` gives, and the cursor stands after it. */
    ghost predicate Read<T>(before: Parsed<T>, r: Option<T>)
      reads this
    {
      if before.Fail? then r.None? else r == Some(before.value) && unread == before.rest
    }

    method NextToken() returns (t: Option<Token>)
      modifies this
      ensures t.Some? <==> old(unread) != [] && old(unread)[0] != Bad
      ensures t.Some? ==> t.value == old(unread)[0] && unread == old(unread)[1..]
    {
      if unread == [] || unread[0] == Bad {
        return None;
      }
      t := Some(unread[0]);
      unread := unread[1..];
    }

    method HasMore() returns (b: bool)
      ensures b == More(unread)
    {
      b := |unread| > 0 && unread[0] != CloseArray && unread[0] != CloseObject;
    }

    method ExpectDelimiter(wanted: Token) returns (ok: bool)
      requires wanted != Bad
      modifies this
      ensures ok <==> Expect(old(unread), wanted).Some?
      ensures ok ==> unread == Expect(old(unread), wanted).value
    {
      var t := NextToken();
      ok := t.Some? && t.value == wanted;
    }

    method DecodeKey() returns (key: Option<string>)
      modifies this
      ensures key.Some? <==> HasKey(old(unread))
      ensures key.Some? ==> key.value == old(unread)[0].text && unread == old(unread)[1..]
    {
      var t := NextToken();
      if t.Some? && t.value.Str? {
        return Some(t.value.text);
      }
      key := None;
    }

    method Skip(depth: nat) returns (ok: bool)
      modifies this
      ensures ok <==> SkipValue(old(unread), depth).Some?
      ensures ok ==> unread == SkipValue(old(unread), depth).value
      decreases |unread|, 0
    {
      if depth >= MAXIMUM_NESTING {
        return false;
      }
      var t := NextToken();
      if t.None? {
        return false;
      }
      match t.value
      case OpenObject => ok := SkipObject(depth + 1);
      case OpenArray => ok := SkipArray(depth + 1);
      case CloseObject => ok := false;
      case CloseArray => ok := false;
      case _ => ok := true;
    }

    method SkipObject(depth: nat) returns (ok: bool)
      modifies this
      ensures ok <==> SkipFields(old(unread), depth).Some?
      ensures ok ==> unread == SkipFields(old(unread), depth).value
      decreases |unread|, 1
    {
      hide SkipValue;
      var more := HasMore();
      while more
        invariant more == More(unread) && |unread| <= old(|unread|)
        invariant SkipFields(old(unread), depth) == SkipFields(unread, depth)
        decreases |unread|
      {
        var key := DecodeKey();
        if key.None? {
          return false;
        }
        ok := Skip(depth);
        if !ok {
          return;
        }
        more := HasMore();
      }
      ok := ExpectDelimiter(CloseObject);
    }

    method SkipArray(depth: nat) returns (ok: bool)
      modifies this
      ensures ok <==> SkipItems(old(unread), depth).Some?
      ensures ok ==> unread == SkipItems(old(unread), depth).value
      decreases |unread|, 1
    {
      hide SkipValue;
      var more := HasMore();
      while more
        invariant more == More(unread) && |unread| <= old(|unread|)
        invariant SkipItems(old(unread), depth) == SkipItems(unread, depth)
        decreases |unread|
      {
        ok := Skip(depth);
        if !ok {
          return;
        }
        more := HasMore();
      }
      ok := ExpectDelimiter(CloseArray);
    }

    /** A number or null into a float that holds zero. */
    method DecodeFloat() returns (r: Option<real>)
      modifies this
      ensures Read(ReadFloat(old(unread)), r)
    {
      var t := NextToken();
      if t.Some? && t.value.Null? {
        return Some(0.0);
      }
      r := if t.Some? && t.value.Num? then t.value.number.float32 else None;
    }

    /** A number or null into an index that holds -1, then the range check. */
    method DecodeIndex() returns (r: Option<int>)
      modifies this
      ensures Read(ReadIndex(old(unread)), r)
    {
      var t := NextToken();
      var index := -1;
      if t.Some? && t.value.Num? && t.value.number.integer.Some? {
        index := t.value.number.integer.value;
      } else if !(t.Some? && t.value.Null?) {
        return None;
      }
      r := if index < 0 || index >= MAXIMUM_VECTORS then None else Some(index);
    }

    method DecodeCount(before: nat) returns (r: Option<nat>)
      modifies this
      ensures Read(ReadCount(old(unread), before), r)
    {
      var t := NextToken();
      if t.Some? && t.value.Null? {
        return Some(before);
      }
      r := if t.Some? && t.value.Num? then t.value.number.unsigned else None;
    }

    method DecodeVector() returns (r: Option<Vector>)
      modifies this
      ensures Read(ReadVector(old(unread)), r)
    {
      hide ReadFloat;
      FloatAgrees();
      var ok := ExpectDelimiter(OpenArray);
      if !ok {
        return None;
      }
      var vector: Vector := [];
      var more := HasMore();
      while more
        invariant more == More(unread) && |vector| <= MAXIMUM_DIMENSIONS
        invariant ReadVector(old(unread)) == ArrayTail(unread, ReadFloat, MAXIMUM_DIMENSIONS, vector)
        decreases |unread|
      {
        if |vector| == MAXIMUM_DIMENSIONS {
          return None;
        }
        var value := DecodeFloat();
        if value.None? {
          return None;
        }
        vector := vector + [value.value];
        more := HasMore();
      }
      ok := ExpectDelimiter(CloseArray);
      r := if ok then Some(vector) else None;
    }

    /** The value of one field of an item. */
    method DecodeItemField(key: string, p: Partial) returns (r: Option<Partial>)
      modifies this
      ensures Read(ItemStep(key, old(unread), p), r)
    {
      hide ReadVector, ReadIndex, SkipValue;
      if key == "embedding" {
        if p.vector.Some? {
          return None;
        }
        var vector := DecodeVector();
        r := if vector.Some? then Some(p.(vector := vector)) else None;
      } else if key == "index" {
        if p.index.Some? {
          return None;
        }
        var index := DecodeIndex();
        r := if index.Some? then Some(p.(index := index)) else None;
      } else {
        var ok := Skip(0);
        r := if ok then Some(p) else None;
      }
    }

    method DecodeItem() returns (r: Option<Item>)
      modifies this
      ensures Read(ReadItem(old(unread)), r)
    {
      hide ItemStep;
      ItemStepShrinks();
      var ok := ExpectDelimiter(OpenObject);
      if !ok {
        return None;
      }
      var item := Partial(None, None);
      ghost var start := unread;
      var more := HasMore();
      while more
        invariant more == More(unread)
        invariant ObjectTail(start, ItemStep, NO_FIELDS) == ObjectTail(unread, ItemStep, item)
        decreases |unread|
      {
        var key := DecodeKey();
        if key.None? {
          return None;
        }
        var next := DecodeItemField(key.value, item);
        if next.None? {
          return None;
        }
        item := next.value;
        more := HasMore();
      }
      ok := ExpectDelimiter(CloseObject);
      if !ok || item.vector.None? || item.index.None? {
        return None;
      }
      r := Some(Item(item.vector.value, item.index.value));
    }

    method DecodeItems() returns (r: Option<seq<Item>>)
      modifies this
      ensures Read(ReadItems(old(unread)), r)
    {
      hide ReadItem;
      var ok := ExpectDelimiter(OpenArray);
      if !ok {
        return None;
      }
      var items: seq<Item> := [];
      var more := HasMore();
      while more
        invariant more == More(unread) && |items| <= MAXIMUM_VECTORS
        invariant ReadItems(old(unread)) == ArrayTail(unread, ReadItem, MAXIMUM_VECTORS, items)
        decreases |unread|
      {
        if |items| == MAXIMUM_VECTORS {
          return None;
        }
        var item := DecodeItem();
        if item.None? {
          return None;
        }
        items := items + [item.value];
        more := HasMore();
      }
      ok := ExpectDelimiter(CloseArray);
      r := if ok then Some(items) else None;
    }

    method DecodeUsageField(key: string, u: Usage) returns (r: Option<Usage>)
      modifies this
      ensures Read(UsageStep(key, old(unread), u), r)
    {
      hide ReadCount, SkipValue;
      if key == "prompt_tokens" {
        var n := DecodeCount(u.promptTokens);
        r := if n.Some? then Some(u.(promptTokens := n.value, hasPrompt := true)) else None;
      } else if key == "total_tokens" {
        var n := DecodeCount(u.totalTokens);
        r := if n.Some? then Some(u.(totalTokens := n.value, hasTotal := true)) else None;
      } else {
        var ok := Skip(0);
        r := if ok then Some(u) else None;
      }
    }

    method DecodeUsage() returns (r: Option<Usage>)
      modifies this
      ensures Read(ReadUsage(old(unread)), r)
    {
      hide UsageStep;
      UsageStepShrinks();
      var ok := ExpectDelimiter(OpenObject);
      if !ok {
        return None;
      }
      var usage := NO_USAGE;
      var more := HasMore();
      while more
        invariant more == More(unread)
        invariant ReadUsage(old(unread)) == ObjectTail(unread, UsageStep, usage)
        decreases |unread|
      {
        var key := DecodeKey();
        if key.None? {
          return None;
        }
        var next := DecodeUsageField(key.value, usage);
        if next.None? {
          return None;
        }
        usage := next.value;
        more := HasMore();
      }
      ok := ExpectDelimiter(CloseObject);
      r := if ok then Some(usage) else None;
    }

    method DecodeReplyField(key: string, s: Reply) returns (r: Option<Reply>)
      modifies this
      ensures Read(ReplyStep(key, old(unread), s), r)
    {
      hide ReadItems, ReadUsage, SkipValue;
      if key == "data" {
        var items := DecodeItems();
        r := if items.Some? then Some(s.(items := items.value)) else None;
      } else if key == "usage" {
        var usage := DecodeUsage();
        r := if usage.Some? then Some(s.(usage := usage.value.(present := true))) else None;
      } else {
        var ok := Skip(0);
        r := if ok then Some(s) else None;
      }
    }

    method DecodeReply(cutOff: bool) returns (r: Option<Reply>)
      modifies this
      ensures r == ReadReply(old(unread), cutOff)
    {
      hide ReplyStep;
      ReplyStepShrinks();
      var ok := ExpectDelimiter(OpenObject);
      if !ok {
        return None;
      }
      var s := Reply([], NO_USAGE);
      ghost var start := unread;
      var more := HasMore();
      while more
        invariant more == More(unread)
        invariant ObjectTail(start, ReplyStep, EMPTY_REPLY) == ObjectTail(unread, ReplyStep, s)
        decreases |unread|
      {
        var key := DecodeKey();
        if key.None? {
          return None;
        }
        var next := DecodeReplyField(key.value, s);
        if next.None? {
          return None;
        }
        s := next.value;
        more := HasMore();
      }
      ok := ExpectDelimiter(CloseObject);
      if !ok || |unread| > 0 || cutOff {
        return None;
      }
      r := Some(s);
    }
  }

  // ----- Placement by index -----

  /** The indexes are 0 to n - 1, each once. */
  ghost predicate Bijective(items: seq<Item>) {
    && (forall i :: 0 <= i < |items| ==> 0 <= items[i].index < |items|)
    && (forall i, j :: 0 <= i < j < |items| ==> items[i].index != items[j].index)
  }

  /** Every slot holds the vector sent with its index. */
  ghost predicate Placed(items: seq<Item>, vectors: seq<Vector>) {
    && Bijective(items) && |vectors| == |items|
    && forall i :: 0 <= i < |items| ==> vectors[items[i].index] == items[i].vector
  }

  method PlaceVectors(items: seq<Item>) returns (r: Option<seq<Vector>>)
    ensures r.Some? <==> items != [] && Bijective(items)
    ensures r.Some? ==> Placed(items, r.value)
  {
    if |items| == 0 {
      return None;
    }
    var embeddings := new Vector[|items|](_ => []);
    var seen := new bool[|items|](_ => false);
    for k := 0 to |items|
      invariant forall i :: 0 <= i < k ==> 0 <= items[i].index < |items| && embeddings[items[i].index] == items[i].vector
      invariant forall i, j :: 0 <= i < j < k ==> items[i].index != items[j].index
      invariant forall x :: 0 <= x < |items| ==> (seen[x] <==> exists i :: 0 <= i < k && items[i].index == x)
    {
      var item := items[k];
      if item.index < 0 || item.index >= |items| || seen[item.index] {
        return None;
      }
      seen[item.index] := true;
      embeddings[item.index] := item.vector;
    }
    r := Some(embeddings[..]);
  }

  /** Distinct indexes below n, n of them, leave no slot empty. */
  lemma EverySlotFilled(items: seq<Item>, x: nat)
    requires Bijective(items) && x < |items|
    ensures exists i :: 0 <= i < |items| && items[i].index == x
  {
    var used := IndexSet(items, |items|);
    IndexSetSize(items, |items|);
    if x !in used {
      Smaller(used, Below(|items|) - {x});
    }
  }

  ghost function IndexSet(items: seq<Item>, k: nat): set<int>
    requires k <= |items|
  {
    set i | 0 <= i < k :: items[i].index
  }

  lemma {:induction false} IndexSetSize(items: seq<Item>, k: nat)
    requires Bijective(items) && k <= |items|
    ensures |IndexSet(items, k)| == k
  {
    if k > 0 {
      var last := items[k - 1].index;
      IndexSetSize(items, k - 1);
      assert IndexSet(items, k) == IndexSet(items, k - 1) + {last};
      assert last !in IndexSet(items, k - 1);
      hide IndexSet, Bijective;
    }
  }

  ghost function Below(n: nat): (s: set<int>)
    ensures |s| == n && forall x :: x in s <==> 0 <= x < n
  {
    if n == 0 then {} else Below(n - 1) + {n - 1}
  }

  lemma Smaller<T>(a: set<T>, b: set<T>)
    requires a <= b
    ensures |a| <= |b|
  {
    assert b == a + (b - a);
  }

  /** The placed result is determined by the items. */
  lemma PlacedOnce(items: seq<Item>, a: seq<Vector>, b: seq<Vector>)
    requires Placed(items, a) && Placed(items, b)
    ensures a == b
  {
    forall x | 0 <= x < |a|
      ensures a[x] == b[x]
    {
      EverySlotFilled(items, x);
    }
  }

  /** Items sent in another order are accepted alike and placed alike. */
  lemma OrderOfItemsIrrelevant(a: seq<Item>, b: seq<Item>, vectors: seq<Vector>)
    requires multiset(a) == multiset(b) && Placed(a, vectors)
    ensures Placed(b, vectors)
  {
    assert |a| == |multiset(a)| == |b|;
    forall i | 0 <= i < |b|
      ensures 0 <= b[i].index < |b| && vectors[b[i].index] == b[i].vector
    {
      assert b[i] in multiset(a);
    }
    forall i, j | 0 <= i < j < |b|
      ensures b[i].index != b[j].index
    {
      if b[i].index == b[j].index {
        assert b[i].vector == b[j].vector;
        assert b[i] == b[j];
        TwiceInSequence(b, i, j);
        OnceWhenBijective(a, b[i]);
      }
    }
  }

  lemma TwiceInSequence(b: seq<Item>, i: nat, j: nat)
    requires i < j < |b| && b[i] == b[j]
    ensures multiset(b)[b[i]] >= 2
  {
    assert b == b[..j] + [b[j]] + b[j + 1..];
    assert b[..j][i] == b[i] && b[i] in multiset(b[..j]);
  }

  lemma {:induction false} OnceWhenBijective(a: seq<Item>, x: Item)
    requires forall i, j :: 0 <= i < j < |a| ==> a[i].index != a[j].index
    ensures multiset(a)[x] <= 1
  {
    if a != [] {
      var n := |a| - 1;
      OnceWhenBijective(a[..n], x);
      assert a == a[..n] + [a[n]];
      if a[n] == x {
        assert forall i :: 0 <= i < n ==> a[..n][i] != x;
        assert x !in multiset(a[..n]);
      }
    }
  }

  lemma MapAppend(a: seq<Json>, b: seq<Json>)
    requires MapItems(a, ItemOf).Some? && MapItems(b, ItemOf).Some?
    ensures MapItems(a + b, ItemOf) == Some(MapItems(a, ItemOf).value + MapItems(b, ItemOf).value)
  {
    hide ItemOf, MapItems;
    var whole := MapItems(a + b, ItemOf);
    assert forall i :: 0 <= i < |a + b| ==> (a + b)[i] == if i < |a| then a[i] else b[i - |a|];
    assert whole.Some?;
    assert whole.value == MapItems(a, ItemOf).value + MapItems(b, ItemOf).value;
  }

  lemma RemoveOne<T>(x: T, a: seq<T>, front: seq<T>, back: seq<T>)
    requires multiset([x] + a) == multiset(front + ([x] + back))
    ensures multiset(a) == multiset(front + back)
  {
    assert multiset([x] + a) - multiset{x} == multiset(a);
    assert multiset(front + ([x] + back)) - multiset{x} == multiset(front + back);
  }

  lemma MapAll(items: seq<Json>)
    ensures MapItems(items, ItemOf).Some? <==> forall v :: v in multiset(items) ==> ItemOf(v).Some?
  {
    hide ItemOf;
  }

  lemma {:induction false} MapPermuted(a: seq<Json>, b: seq<Json>)
    requires multiset(a) == multiset(b) && MapItems(a, ItemOf).Some?
    ensures MapItems(b, ItemOf).Some? && multiset(MapItems(a, ItemOf).value) == multiset(MapItems(b, ItemOf).value)
    decreases |a|
  {
    hide ItemOf, MapItems;
    assert |a| == |multiset(a)| == |b|;
    if a == [] {
      assert b == [];
    } else {
      var x := a[0];
      assert x in multiset(b);
      var j :| 0 <= j < |b| && b[j] == x;
      var front, back := b[..j], b[j + 1..];
      assert a == [x] + a[1..] && b == front + ([x] + back);
      RemoveOne(x, a[1..], front, back);
      MapParts(a, b, x, front, back);
      MapPermuted(a[1..], front + back);
      MapMoved(x, a[1..], front, back);
    }
  }

  lemma MapParts(a: seq<Json>, b: seq<Json>, x: Json, front: seq<Json>, back: seq<Json>)
    requires a != [] && x == a[0] && multiset(a) == multiset(b) && b == front + ([x] + back) && MapItems(a, ItemOf).Some?
    ensures ItemOf(x).Some? && MapItems(a[1..], ItemOf).Some?
    ensures MapItems(front, ItemOf).Some? && MapItems(back, ItemOf).Some?
  {
    hide ItemOf, MapItems;
    MapAll(a);
    MapAll(a[1..]);
    MapAll(front);
    MapAll(back);
    assert a == [x] + a[1..];
    assert forall v :: v in multiset(front) || v in multiset(back) || v == x ==> v in multiset(b);
  }

  lemma MapMoved(x: Json, tail: seq<Json>, front: seq<Json>, back: seq<Json>)
    requires ItemOf(x).Some? && MapItems(tail, ItemOf).Some? && MapItems(front, ItemOf).Some? && MapItems(back, ItemOf).Some?
    requires MapItems(front + back, ItemOf).Some?
    requires multiset(MapItems(tail, ItemOf).value) == multiset(MapItems(front + back, ItemOf).value)
    ensures MapItems([x] + tail, ItemOf).Some? && MapItems(front + ([x] + back), ItemOf).Some?
    ensures multiset(MapItems([x] + tail, ItemOf).value) == multiset(MapItems(front + ([x] + back), ItemOf).value)
  {
    hide ItemOf, MapItems;
    MapCons(x, tail, ItemOf);
    MapCons(x, back, ItemOf);
    MapAppend(front, back);
    MapAppend(front, [x] + back);
  }

  /** Every vector of an accepted data array stays within the dimension limit, and there are at most 256 of them. */
  lemma WithinLimits(v: Json)
    requires ItemsOf(v).Some?
    ensures |ItemsOf(v).value| <= MAXIMUM_VECTORS
    ensures forall i :: 0 <= i < |ItemsOf(v).value| ==> |ItemsOf(v).value[i].vector| <= MAXIMUM_DIMENSIONS
  {
    hide ItemOf, Height, Given;
    var items := ItemsOf(v).value;
    forall i | 0 <= i < |items|
      ensures |items[i].vector| <= MAXIMUM_DIMENSIONS
    {
      ItemIsDeclarative(v.items[i], items[i]);
    }
  }

  ghost predicate Bounded(items: seq<Item>) {
    && |items| <= MAXIMUM_VECTORS
    && forall i :: 0 <= i < |items| ==> |items[i].vector| <= MAXIMUM_DIMENSIONS
  }

  lemma {:induction false} FoldBounded(fields: seq<Field>, s: Reply)
    requires Bounded(s.items) && FoldFields(fields, ReplyTreeStep, s).Some?
    ensures Bounded(FoldFields(fields, ReplyTreeStep, s).value.items)
    decreases |fields|
  {
    hide ItemsOf, UsageOf, Height;
    if fields != [] {
      var f := fields[0];
      if f.key == "data" && ItemsOf(f.value).Some? {
        WithinLimits(f.value);
      }
      FoldBounded(fields[1..], ReplyTreeStep(f.key, f.value, s).value);
    }
  }

  // ----- The whole response -----

  /** What a document says: the vectors of its last data array in their slots, at least one, and its usage. */
  ghost predicate Says(v: Json, vectors: seq<Vector>, usage: Usage) {
    exists s :: ReplyIs(v, s) && s.items != [] && Placed(s.items, vectors) && s.usage == usage
  }

  /** The tokens are one complete document that says this. */
  ghost predicate Decodes(tokens: seq<Token>, cutOff: bool, vectors: seq<Vector>, usage: Usage) {
    !cutOff && exists v :: tokens == Tokens(v) && Says(v, vectors, usage)
  }

  method DecodeOpenAIResponse(tokens: seq<Token>, cutOff: bool) returns (r: Option<(seq<Vector>, Usage)>)
    ensures r.Some? ==> Decodes(tokens, cutOff, r.value.0, r.value.1)
    ensures forall vectors, usage :: Decodes(tokens, cutOff, vectors, usage) ==> r == Some((vectors, usage))
    ensures r.Some? ==> 1 <= |r.value.0| <= MAXIMUM_VECTORS
    ensures r.Some? ==> forall x :: 0 <= x < |r.value.0| ==> |r.value.0[x]| <= MAXIMUM_DIMENSIONS
  {
    hide ReadReply, ReplyOf, Decodes, Placed;
    var decoder := new Decoder(tokens);
    var reply := decoder.DecodeReply(cutOff);
    forall vectors, usage | Decodes(tokens, cutOff, vectors, usage)
      ensures reply.Some? && reply.value.items != [] && Placed(reply.value.items, vectors) && reply.value.usage == usage
    {
      DecodedIsRead(tokens, cutOff, vectors, usage);
    }
    if reply.None? {
      return None;
    }
    ghost var v := ReplySound(tokens, cutOff);
    ReplyBounded(v);
    var vectors := PlaceVectors(reply.value.items);
    if vectors.None? {
      PlacedIsBijective(reply.value.items);
      return None;
    }
    r := Some((vectors.value, reply.value.usage));
    PlacedBounded(reply.value.items, vectors.value);
    ReadIsDecoded(tokens, cutOff, v, vectors.value);
    forall others | Placed(reply.value.items, others)
      ensures others == vectors.value
    {
      PlacedOnce(reply.value.items, others, vectors.value);
    }
  }

  lemma PlacedIsBijective(items: seq<Item>)
    ensures forall vectors :: Placed(items, vectors) ==> Bijective(items)
  {
  }

  lemma DecodedIsRead(tokens: seq<Token>, cutOff: bool, vectors: seq<Vector>, usage: Usage)
    requires Decodes(tokens, cutOff, vectors, usage)
    ensures var reply := ReadReply(tokens, cutOff);
      reply.Some? && reply.value.items != [] && Placed(reply.value.items, vectors) && reply.value.usage == usage
  {
    hide Tokens, ReadReply, ReplyOf, ReplyIs, Placed;
    var v :| tokens == Tokens(v) && Says(v, vectors, usage);
    var s :| ReplyIs(v, s) && s.items != [] && Placed(s.items, vectors) && s.usage == usage;
    ReplyIsDeclarative(v, s);
    ReplyAgrees(v, [], cutOff);
    assert Tokens(v) + [] == Tokens(v);
  }

  lemma ReadIsDecoded(tokens: seq<Token>, cutOff: bool, v: Json, vectors: seq<Vector>)
    requires tokens == Tokens(v) && !cutOff && ReplyOf(v).Some? && ReplyOf(v).value.items != []
    requires Placed(ReplyOf(v).value.items, vectors)
    ensures Decodes(tokens, cutOff, vectors, ReplyOf(v).value.usage)
  {
    hide Tokens, ReplyOf, ReplyIs, Placed;
    ReplyIsDeclarative(v, ReplyOf(v).value);
    assert Says(v, vectors, ReplyOf(v).value.usage);
  }

  lemma ReplyBounded(v: Json)
    ensures ReplyOf(v).Some? ==> Bounded(ReplyOf(v).value.items)
  {
    hide FoldFields;
    if ReplyOf(v).Some? {
      FoldBounded(v.fields, EMPTY_REPLY);
    }
  }

  lemma PlacedBounded(items: seq<Item>, vectors: seq<Vector>)
    requires Placed(items, vectors) && Bounded(items)
    ensures forall x :: 0 <= x < |vectors| ==> |vectors[x]| <= MAXIMUM_DIMENSIONS
  {
    forall x | 0 <= x < |vectors|
      ensures |vectors[x]| <= MAXIMUM_DIMENSIONS
    {
      EverySlotFilled(items, x);
    }
  }

  // ----- The order of entries in a whole response -----

  lemma ItemsRearranged(v: Json, w: Json)
    requires Rearranged(v, w) && ItemsOf(v).Some?
    ensures ItemsOf(w).Some? && multiset(ItemsOf(v).value) == multiset(ItemsOf(w).value)
  {
    hide MapItems, ItemOf;
    if v != w {
      assert |v.items| == |multiset(v.items)| == |w.items|;
      MapPermuted(v.items, w.items);
    }
  }

  lemma DataRearranged(a: seq<Json>, b: seq<Json>)
    requires AllRearranged(a, b) && AllRead(a, ItemsOf)
    ensures AllRead(b, ItemsOf) && multiset(LastRead([], a, ItemsOf)) == multiset(LastRead([], b, ItemsOf))
  {
    hide ItemsOf, Rearranged;
    forall i | 0 <= i < |b|
      ensures ItemsOf(b[i]).Some? && multiset(ItemsOf(a[i]).value) == multiset(ItemsOf(b[i]).value)
    {
      ItemsRearranged(a[i], b[i]);
    }
  }

  lemma ShallowRearranged(a: seq<Field>, b: seq<Field>)
    requires FieldsRearranged(a, b) && OthersShallow(a, "data", "usage")
    ensures OthersShallow(b, "data", "usage")
  {
    hide Height, Rearranged;
  }

  /** Documents that differ only in the order of entries within data arrays say the same. */
  lemma ResponseOrderIrrelevant(v: Json, w: Json, vectors: seq<Vector>, usage: Usage)
    requires SameButDataOrder(v, w) && Says(v, vectors, usage)
    ensures Says(w, vectors, usage)
  {
    hide ItemsOf, PresentUsage, Given, OthersShallow, Placed, FieldsRearranged, AllRead, LastRead;
    var s :| ReplyIs(v, s) && s.items != [] && Placed(s.items, vectors) && s.usage == usage;
    GivenRearranged(v.fields, w.fields);
    DataRearranged(Given(v.fields, "data"), Given(w.fields, "data"));
    ShallowRearranged(v.fields, w.fields);
    var t := Reply(LastRead([], Given(w.fields, "data"), ItemsOf), s.usage);
    OrderOfItemsIrrelevant(s.items, t.items, vectors);
    assert |t.items| == |multiset(t.items)| == |multiset(s.items)| == |s.items|;
    assert ReplyIs(w, t);
  }
}
