/** What an embedding response says, told from the document as a whole. */
module EmbeddingReply {
  import opened Wrappers
  import opened JsonTokens
  import opened JsonLoops
  import opened EmbeddingDecode

  function LastOr<T>(before: T, values: seq<T>): (r: T) {
    if values == [] then before else values[|values| - 1]
  }

  lemma LastCons<T>(before: T, x: T, values: seq<T>)
    ensures LastOr(before, [x] + values) == LastOr(x, values)
  {
  }

  // ----- Usage -----

  ghost predicate AllCounts(values: seq<Json>) {
    forall i :: 0 <= i < |values| ==> CountOf(values[i], 0).Some?
  }

  /** The numbers among the values, nulls left out. */
  function Numbers(values: seq<Json>): (ns: seq<nat>) {
    if values == [] then []
    else (if values[0].Numeric? && values[0].number.unsigned.Some? then [values[0].number.unsigned.value] else [])
         + Numbers(values[1..])
  }

  /** The last number given for each count; null changes nothing, and any other value is refused. */
  ghost predicate UsageIs(v: Json, u: Usage) {
    && v.Object? && OthersShallow(v.fields, "prompt_tokens", "total_tokens")
    && var prompts, totals := Given(v.fields, "prompt_tokens"), Given(v.fields, "total_tokens");
    && AllCounts(prompts) && AllCounts(totals)
    && u == Usage(LastOr(0, Numbers(prompts)), LastOr(0, Numbers(totals)), false, prompts != [], totals != [])
  }

  ghost predicate CountsMove(before: nat, had: bool, values: seq<Json>, after: nat, has: bool) {
    AllCounts(values) && after == LastOr(before, Numbers(values)) && has == (had || values != [])
  }

  lemma CountsCons(before: nat, had: bool, v: Json, values: seq<Json>, after: nat, has: bool)
    ensures CountsMove(before, had, [v] + values, after, has) <==>
      CountOf(v, before).Some? && CountsMove(CountOf(v, before).value, true, values, after, has)
  {
    assert ([v] + values)[1..] == values;
    assert AllCounts([v] + values) <==> CountOf(v, 0).Some? && AllCounts(values) by {
      assert forall i :: 0 <= i < |values| ==> ([v] + values)[i + 1] == values[i];
      assert ([v] + values)[0] == v;
    }
    if CountOf(v, before).Some? && v.Numeric? {
      LastCons(before, v.number.unsigned.value, Numbers(values));
    }
  }

  lemma GivenCons(fields: seq<Field>, key: string)
    requires fields != []
    ensures Given(fields, key) ==
      if fields[0].key == key then [fields[0].value] + Given(fields[1..], key) else Given(fields[1..], key)
  {
  }

  lemma {:induction false} FoldUsage(fields: seq<Field>, u: Usage, w: Usage)
    ensures FoldFields(fields, UsageTreeStep, u) == Some(w) <==>
      && OthersShallow(fields, "prompt_tokens", "total_tokens") && w.present == u.present
      && CountsMove(u.promptTokens, u.hasPrompt, Given(fields, "prompt_tokens"), w.promptTokens, w.hasPrompt)
      && CountsMove(u.totalTokens, u.hasTotal, Given(fields, "total_tokens"), w.totalTokens, w.hasTotal)
    decreases |fields|
  {
    hide Height, CountOf, Given, CountsMove, OthersShallow;
    if fields == [] {
      NoUsageFields(u, w);
    } else {
      var f := fields[0];
      ShallowCons(fields, "prompt_tokens", "total_tokens");
      GivenCons(fields, "prompt_tokens");
      GivenCons(fields, "total_tokens");
      var prompts, totals := Given(fields[1..], "prompt_tokens"), Given(fields[1..], "total_tokens");
      if f.key == "prompt_tokens" {
        CountsCons(u.promptTokens, u.hasPrompt, f.value, prompts, w.promptTokens, w.hasPrompt);
      } else if f.key == "total_tokens" {
        CountsCons(u.totalTokens, u.hasTotal, f.value, totals, w.totalTokens, w.hasTotal);
      }
      var next := UsageTreeStep(f.key, f.value, u);
      if next.Some? {
        FoldUsage(fields[1..], next.value, w);
      }
    }
  }

  lemma NoUsageFields(u: Usage, w: Usage)
    ensures Given([], "prompt_tokens") == [] && Given([], "total_tokens") == []
    ensures OthersShallow([], "prompt_tokens", "total_tokens")
    ensures CountsMove(u.promptTokens, u.hasPrompt, [], w.promptTokens, w.hasPrompt) <==>
      w.promptTokens == u.promptTokens && w.hasPrompt == u.hasPrompt
    ensures CountsMove(u.totalTokens, u.hasTotal, [], w.totalTokens, w.hasTotal) <==>
      w.totalTokens == u.totalTokens && w.hasTotal == u.hasTotal
  {
  }

  /** A usage object is read exactly when it is one, and says the last number given for each count. */
  lemma UsageIsDeclarative(v: Json, u: Usage)
    ensures UsageOf(v) == Some(u) <==> UsageIs(v, u)
  {
    hide FoldFields, Given, OthersShallow;
    if v.Object? {
      FoldUsage(v.fields, NO_USAGE, u);
    }
  }

  // ----- The response -----

  ghost predicate AllRead<T>(values: seq<Json>, read: TreeReader<T>) {
    forall i :: 0 <= i < |values| ==> read(values[i]).Some?
  }

  ghost function LastRead<T>(before: T, values: seq<Json>, read: TreeReader<T>): T
    requires AllRead(values, read)
  {
    if values == [] then before else read(values[|values| - 1]).value
  }

  function PresentUsage(v: Json): (r: Option<Usage>) {
    if UsageOf(v).None? then None else Some(UsageOf(v).value.(present := true))
  }

  /** Every data array and every usage object must be readable; the last of each is the one that counts. */
  ghost predicate ReplyIs(v: Json, s: Reply) {
    && v.Object? && OthersShallow(v.fields, "data", "usage")
    && AllRead(Given(v.fields, "data"), ItemsOf) && AllRead(Given(v.fields, "usage"), PresentUsage)
    && s.items == LastRead([], Given(v.fields, "data"), ItemsOf)
    && s.usage == LastRead(NO_USAGE, Given(v.fields, "usage"), PresentUsage)
  }

  ghost predicate ReadsMove<T>(before: T, values: seq<Json>, read: TreeReader<T>, after: T) {
    AllRead(values, read) && after == LastRead(before, values, read)
  }

  lemma ReadsCons<T>(before: T, v: Json, values: seq<Json>, read: TreeReader<T>, after: T)
    ensures ReadsMove(before, [v] + values, read, after) <==> read(v).Some? && ReadsMove(read(v).value, values, read, after)
  {
    assert AllRead([v] + values, read) <==> read(v).Some? && AllRead(values, read) by {
      assert forall i :: 0 <= i < |values| ==> ([v] + values)[i + 1] == values[i];
      assert ([v] + values)[0] == v;
    }
  }

  lemma {:induction false} FoldReply(fields: seq<Field>, s: Reply, t: Reply)
    ensures FoldFields(fields, ReplyTreeStep, s) == Some(t) <==>
      && OthersShallow(fields, "data", "usage")
      && ReadsMove(s.items, Given(fields, "data"), ItemsOf, t.items)
      && ReadsMove(s.usage, Given(fields, "usage"), PresentUsage, t.usage)
    decreases |fields|
  {
    hide Height, ItemsOf, UsageOf;
    if fields != [] {
      var f := fields[0];
      ShallowCons(fields, "data", "usage");
      GivenCons(fields, "data");
      GivenCons(fields, "usage");
      ReadsCons(s.items, f.value, Given(fields[1..], "data"), ItemsOf, t.items);
      ReadsCons(s.usage, f.value, Given(fields[1..], "usage"), PresentUsage, t.usage);
      hide Given, ReadsMove, OthersShallow;
      var next := ReplyTreeStep(f.key, f.value, s);
      if next.Some? {
        FoldReply(fields[1..], next.value, t);
      }
    }
  }

  /** A document reads as a reply exactly when it is one. */
  lemma ReplyIsDeclarative(v: Json, s: Reply)
    ensures ReplyOf(v) == Some(s) <==> ReplyIs(v, s)
  {
    hide FoldFields, Given, OthersShallow, ItemsOf, PresentUsage;
    if v.Object? {
      FoldReply(v.fields, EMPTY_REPLY, s);
    }
  }

  // ----- The order of the data -----

  /** The two values are equal, or both are arrays of the same entries in some order. */
  ghost predicate Rearranged(v: Json, w: Json) {
    v == w || (v.Array? && w.Array? && multiset(v.items) == multiset(w.items))
  }

  /** Documents that differ only in the order of entries within their data arrays. */
  ghost predicate SameButDataOrder(v: Json, w: Json) {
    v.Object? && w.Object? && FieldsRearranged(v.fields, w.fields)
  }

  ghost predicate FieldsRearranged(a: seq<Field>, b: seq<Field>) {
    |a| == |b| && forall i :: 0 <= i < |a| ==>
      a[i].key == b[i].key && (if a[i].key == "data" then Rearranged(a[i].value, b[i].value) else a[i].value == b[i].value)
  }

  ghost predicate AllRearranged(a: seq<Json>, b: seq<Json>) {
    |a| == |b| && forall i :: 0 <= i < |a| ==> Rearranged(a[i], b[i])
  }

  lemma RearrangedCons(x: Json, a: seq<Json>, y: Json, b: seq<Json>)
    requires Rearranged(x, y) && AllRearranged(a, b)
    ensures AllRearranged([x] + a, [y] + b)
  {
    hide Rearranged;
  }

  lemma {:induction false} GivenRearranged(a: seq<Field>, b: seq<Field>)
    requires FieldsRearranged(a, b)
    ensures AllRearranged(Given(a, "data"), Given(b, "data")) && Given(a, "usage") == Given(b, "usage")
    decreases |a|
  {
    hide Rearranged;
    if a != [] {
      assert FieldsRearranged(a[1..], b[1..]);
      GivenRearranged(a[1..], b[1..]);
      GivenCons(a, "data");
      GivenCons(b, "data");
      GivenCons(a, "usage");
      GivenCons(b, "usage");
      hide Given, AllRearranged;
      if a[0].key == "data" {
        RearrangedCons(a[0].value, Given(a[1..], "data"), b[0].value, Given(b[1..], "data"));
      }
    }
  }
}
