/** Allowlists of an agent policy: parsing a comma-separated text and joining it again. */
module AgentAllowlist {
  import opened Wrappers
  import opened TextOrder

  /** Which characters are blank, and how each is lowered. */
  datatype Folding = Folding(blank: char -> bool, lower: char -> char)

  /** Lowering is settled after one pass and neither makes nor unmakes a blank or a comma. */
  ghost predicate Lawful(f: Folding) {
    && (forall c :: f.lower(f.lower(c)) == f.lower(c))
    && (forall c :: f.blank(f.lower(c)) == f.blank(c))
    && (forall c :: f.lower(c) == ',' <==> c == ',')
  }

  function TrimLeft(f: Folding, s: string): (t: string) {
    if s != [] && f.blank(s[0]) then TrimLeft(f, s[1..]) else s
  }

  function TrimRight(f: Folding, s: string): (t: string) {
    if s != [] && f.blank(s[|s| - 1]) then TrimRight(f, s[..|s| - 1]) else s
  }

  function Trim(f: Folding, s: string): (t: string) {
    TrimRight(f, TrimLeft(f, s))
  }

  function Lower(f: Folding, s: string): (t: string)
    ensures |t| == |s|
    ensures forall i :: 0 <= i < |s| ==> t[i] == f.lower(s[i])
  {
    seq(|s|, i requires 0 <= i < |s| => f.lower(s[i]))
  }

  function Normal(f: Folding, s: string): (t: string) {
    Lower(f, Trim(f, s))
  }

  /** The parts between commas; a text without commas is one part. */
  function Split(s: string): (parts: seq<string>)
    ensures parts != []
  {
    if s == [] then [[]]
    else
      var rest := Split(s[1..]);
      if s[0] == ',' then [[]] + rest else [[s[0]] + rest[0]] + rest[1..]
  }

  function Join(items: seq<string>): (s: string) {
    if items == [] then [] else if |items| == 1 then items[0] else items[0] + "," + Join(items[1..])
  }

  /** The entries named by a text: its parts, trimmed and lowered, without the empty ones. */
  ghost predicate Names(f: Folding, value: string, x: string) {
    x != "" && exists i :: 0 <= i < |Split(value)| && x == Normal(f, Split(value)[i])
  }

  method SplitAllowlist(f: Folding, value: string) returns (items: seq<string>)
    ensures StrictlySorted(items)
    ensures forall x :: x in items <==> Names(f, value, x)
  {
    hide Normal, Split, StrictlySorted;
    var parts := Split(value);
    var seen: set<string> := {};
    items := [];
    for k := 0 to |parts|
      invariant forall x :: x in seen <==> x in items
      invariant forall x :: x in items <==> x != "" && exists i :: 0 <= i < k && x == Normal(f, parts[i])
      invariant forall i, j :: 0 <= i < j < |items| ==> items[i] != items[j]
    {
      var item := Normal(f, parts[k]);
      if item != "" && item !in seen {
        seen := seen + {item};
        items := items + [item];
      }
    }
    assert forall x :: x in items <==> Names(f, value, x);
    SortedStrictly(items);
    SameMembers(SortStrings(items), items);
    items := SortStrings(items);
  }

  // ----- Parsing and joining undo each other -----

  /** An entry as parsing leaves it. */
  ghost predicate Settled(f: Folding, x: string) {
    x != "" && Normal(f, x) == x && ',' !in x
  }

  ghost predicate Normalized(f: Folding, items: seq<string>) {
    StrictlySorted(items) && forall i :: 0 <= i < |items| ==> Settled(f, items[i])
  }

  lemma {:induction false} SplitHasNoCommas(s: string, i: nat)
    requires i < |Split(s)|
    ensures ',' !in Split(s)[i]
    decreases |s|
  {
    if s != [] {
      var rest := Split(s[1..]);
      if s[0] == ',' {
        if i > 0 {
          SplitHasNoCommas(s[1..], i - 1);
        }
      } else {
        SplitHasNoCommas(s[1..], i);
        SplitHasNoCommas(s[1..], 0);
      }
    }
  }

  lemma {:induction false} SplitPlain(x: string)
    requires ',' !in x
    ensures Split(x) == [x]
  {
    if x != [] {
      SplitPlain(x[1..]);
      assert [x[0]] + x[1..] == x;
    }
  }

  lemma {:induction false} SplitFirst(x: string, rest: string)
    requires ',' !in x
    ensures Split(x + "," + rest) == [x] + Split(rest)
    decreases |x|
  {
    var s := x + "," + rest;
    if x == [] {
      assert s[1..] == rest;
    } else {
      SplitFirst(x[1..], rest);
      assert s[1..] == x[1..] + "," + rest;
      assert [x[0]] + x[1..] == x;
    }
  }

  lemma {:induction false} SplitOfJoin(items: seq<string>)
    requires forall i :: 0 <= i < |items| ==> ',' !in items[i]
    ensures Split(Join(items)) == if items == [] then [[]] else items
    decreases |items|
  {
    if |items| == 1 {
      SplitPlain(items[0]);
    } else if items != [] {
      SplitOfJoin(items[1..]);
      SplitFirst(items[0], Join(items[1..]));
      assert items == [items[0]] + items[1..];
    }
  }

  /** Joining normalized entries names exactly those entries. */
  lemma JoinNames(f: Folding, items: seq<string>, x: string)
    requires Normalized(f, items)
    ensures Names(f, Join(items), x) <==> x in items
  {
    hide Normal, Split, Join, StrictlySorted;
    SplitOfJoin(items);
    if items == [] {
      NormalEmpty(f);
    } else if x in items {
      var i :| 0 <= i < |items| && items[i] == x;
      assert x == Normal(f, Split(Join(items))[i]);
    }
  }

  lemma NormalEmpty(f: Folding)
    ensures Normal(f, []) == []
  {
  }

  // ----- What parsing produces is normalized -----

  lemma {:induction false} TrimLeftDone(f: Folding, s: string)
    ensures TrimLeft(f, s) == [] || !f.blank(TrimLeft(f, s)[0])
    ensures |TrimLeft(f, s)| <= |s| && TrimLeft(f, s) == s[|s| - |TrimLeft(f, s)|..]
  {
    if s != [] && f.blank(s[0]) {
      TrimLeftDone(f, s[1..]);
    }
  }

  lemma {:induction false} TrimRightDone(f: Folding, s: string)
    ensures TrimRight(f, s) <= s
    ensures TrimRight(f, s) == [] || !f.blank(TrimRight(f, s)[|TrimRight(f, s)| - 1])
  {
    if s != [] && f.blank(s[|s| - 1]) {
      TrimRightDone(f, s[..|s| - 1]);
    }
  }

  lemma TrimDone(f: Folding, s: string)
    ensures var t := Trim(f, s);
      && (t == [] || (!f.blank(t[0]) && !f.blank(t[|t| - 1])))
      && forall c :: c in t ==> c in s
  {
    var l := TrimLeft(f, s);
    TrimLeftDone(f, s);
    TrimRightDone(f, l);
    hide TrimLeft, TrimRight;
    assert forall c :: c in l ==> c in s;
  }

  lemma TrimNothing(f: Folding, s: string)
    requires s == [] || (!f.blank(s[0]) && !f.blank(s[|s| - 1]))
    ensures Trim(f, s) == s
  {
  }

  lemma NormalSettles(f: Folding, part: string)
    requires Lawful(f) && ',' !in part && Normal(f, part) != ""
    ensures Settled(f, Normal(f, part))
  {
    var t := Trim(f, part);
    var n := Lower(f, t);
    TrimDone(f, part);
    hide Trim;
    assert n[0] == f.lower(t[0]) && n[|n| - 1] == f.lower(t[|t| - 1]);
    TrimNothing(f, n);
    assert Lower(f, n) == n;
    assert forall i :: 0 <= i < |n| ==> n[i] == f.lower(t[i]) && t[i] in t;
  }

  /** A parsed list is normalized: sorted, free of duplicates, and made of settled entries. */
  lemma ParsedIsNormalized(f: Folding, value: string, items: seq<string>)
    requires Lawful(f) && StrictlySorted(items) && forall x :: x in items <==> Names(f, value, x)
    ensures Normalized(f, items)
  {
    hide Normal, Split, StrictlySorted, Settled, Lawful;
    forall k | 0 <= k < |items|
      ensures Settled(f, items[k])
    {
      assert items[k] in items;
      var i :| 0 <= i < |Split(value)| && items[k] == Normal(f, Split(value)[i]);
      SplitHasNoCommas(value, i);
      NormalSettles(f, Split(value)[i]);
    }
  }

  /** Parsing the joined list gives the list back, so a policy built once passes its own normalization check. */
  lemma ParseJoin(f: Folding, items: seq<string>, again: seq<string>)
    requires Lawful(f) && Normalized(f, items)
    requires StrictlySorted(again) && forall x :: x in again <==> Names(f, Join(items), x)
    ensures again == items
  {
    hide Names, StrictlySorted, Settled, Lawful;
    forall x
      ensures x in again <==> x in items
    {
      JoinNames(f, items, x);
    }
    SortedUnique(again, items);
  }

  // ----- The policy -----

  const MAXIMUM_STEPS := 6

  datatype Policy = Policy(providers: seq<string>, profiles: seq<string>, maxSteps: int, stepTimeout: int, maxRuntime: int)

  /** A lower-case letter, then at most 39 letters, digits, underscores or hyphens. */
  predicate SafeName(s: string) {
    && 1 <= |s| <= 40 && 'a' <= s[0] <= 'z'
    && forall i :: 1 <= i < |s| ==> 'a' <= s[i] <= 'z' || '0' <= s[i] <= '9' || s[i] == '_' || s[i] == '-'
  }

  predicate PolicyOk(p: Policy) {
    && p.providers != [] && 1 <= p.maxSteps <= MAXIMUM_STEPS && 10 <= p.stepTimeout <= 900 && 30 <= p.maxRuntime <= 1800
    && (forall i :: 0 <= i < |p.providers| ==> SafeName(p.providers[i]))
    && (forall i :: 0 <= i < |p.profiles| ==> SafeName(p.profiles[i]))
    && (p.profiles != [] ==> "adapter" in p.providers)
  }

  method AllSafe(names: seq<string>) returns (ok: bool)
    ensures ok <==> forall i :: 0 <= i < |names| ==> SafeName(names[i])
  {
    hide SafeName;
    for k := 0 to |names|
      invariant forall i :: 0 <= i < k ==> SafeName(names[i])
    {
      if !SafeName(names[k]) {
        return false;
      }
    }
    ok := true;
  }

  ghost predicate ParsedAs(f: Folding, value: string, items: seq<string>) {
    StrictlySorted(items) && forall x :: x in items <==> Names(f, value, x)
  }

  /** `p` is what these settings ask for. */
  ghost predicate Describes(f: Folding, providers: string, profiles: string, maxSteps: int, stepTimeout: int, maxRuntime: int,
                            p: Policy)
  {
    && ParsedAs(f, providers, p.providers) && ParsedAs(f, profiles, p.profiles)
    && p.maxSteps == maxSteps && p.stepTimeout == stepTimeout && p.maxRuntime == maxRuntime
  }

  method NewAgentPolicy(f: Folding, providers: string, profiles: string, maxSteps: int, stepTimeout: int, maxRuntime: int)
    returns (r: Option<Policy>)
    ensures r.Some? ==> Describes(f, providers, profiles, maxSteps, stepTimeout, maxRuntime, r.value) && PolicyOk(r.value)
    ensures r.None? ==>
      forall p :: Describes(f, providers, profiles, maxSteps, stepTimeout, maxRuntime, p) ==> !PolicyOk(p)
  {
    hide Names, StrictlySorted, SafeName;
    var ps := SplitAllowlist(f, providers);
    var adapters := SplitAllowlist(f, profiles);
    var policy := Policy(ps, adapters, maxSteps, stepTimeout, maxRuntime);
    forall p | Describes(f, providers, profiles, maxSteps, stepTimeout, maxRuntime, p)
      ensures p == policy
    {
      SortedUnique(p.providers, ps);
      SortedUnique(p.profiles, adapters);
    }
    if |ps| == 0 || maxSteps < 1 || maxSteps > MAXIMUM_STEPS || stepTimeout < 10 || stepTimeout > 900
      || maxRuntime < 30 || maxRuntime > 1800
    {
      return None;
    }
    var safe := AllSafe(ps);
    var safeProfiles := AllSafe(adapters);
    if !safe || !safeProfiles || (|adapters| > 0 && "adapter" !in ps) {
      return None;
    }
    r := Some(policy);
  }

  /** Acceptable, with lists as parsing leaves them. */
  ghost predicate Passes(f: Folding, p: Policy) {
    PolicyOk(p) && Normalized(f, p.providers) && Normalized(f, p.profiles)
  }

  /** The check in plan validation: rebuild the policy from the joined lists and compare. */
  method RevalidatePolicy(f: Folding, p: Policy) returns (ok: bool)
    requires Lawful(f)
    ensures ok <==> Passes(f, p)
  {
    hide Names, StrictlySorted, SafeName, Settled, Lawful, PolicyOk;
    var again := NewAgentPolicy(f, Join(p.providers), Join(p.profiles), p.maxSteps, p.stepTimeout, p.maxRuntime);
    if Normalized(f, p.providers) && Normalized(f, p.profiles) {
      RebuiltEquals(f, p);
    }
    if again.None? {
      return false;
    }
    ParsedIsNormalized(f, Join(p.providers), again.value.providers);
    ParsedIsNormalized(f, Join(p.profiles), again.value.profiles);
    ok := again.value.providers == p.providers && again.value.profiles == p.profiles;
  }

  lemma RebuiltEquals(f: Folding, p: Policy)
    requires Lawful(f) && Normalized(f, p.providers) && Normalized(f, p.profiles)
    ensures ParsedAs(f, Join(p.providers), p.providers) && ParsedAs(f, Join(p.profiles), p.profiles)
    ensures forall again :: ParsedAs(f, Join(p.providers), again) ==> again == p.providers
    ensures forall again :: ParsedAs(f, Join(p.profiles), again) ==> again == p.profiles
  {
    hide Names, StrictlySorted, Settled, Lawful;
    forall x
      ensures x in p.providers <==> Names(f, Join(p.providers), x)
      ensures x in p.profiles <==> Names(f, Join(p.profiles), x)
    {
      JoinNames(f, p.providers, x);
      JoinNames(f, p.profiles, x);
    }
    forall again | ParsedAs(f, Join(p.providers), again)
      ensures again == p.providers
    {
      ParseJoin(f, p.providers, again);
    }
    forall again | ParsedAs(f, Join(p.profiles), again)
      ensures again == p.profiles
    {
      ParseJoin(f, p.profiles, again);
    }
  }

  /**
   * Every policy that can be built passes the check: it is acceptable, its lists are normalized, and building again from
   * its own joined lists gives that policy and no other.
   */
  lemma BuiltPolicyPasses(f: Folding, providers: string, profiles: string, p: Policy)
    requires Lawful(f) && PolicyOk(p)
    requires Describes(f, providers, profiles, p.maxSteps, p.stepTimeout, p.maxRuntime, p)
    ensures Passes(f, p)
    ensures forall q ::
      Describes(f, Join(p.providers), Join(p.profiles), p.maxSteps, p.stepTimeout, p.maxRuntime, q) <==> q == p
  {
    hide Names, StrictlySorted, Settled, Lawful, PolicyOk;
    ParsedIsNormalized(f, providers, p.providers);
    ParsedIsNormalized(f, profiles, p.profiles);
    RebuiltEquals(f, p);
  }

  /** Blanks and letters of ASCII; one folding for which all this holds. */
  function Ascii(): (f: Folding) {
    Folding(c => c in " \t\n\r", c => if 'A' <= c <= 'Z' then c + 32 as char else c)
  }

  lemma AsciiIsLawful()
    ensures Lawful(Ascii())
  {
  }
}
