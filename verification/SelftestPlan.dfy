/** The self-test planner: one target, or one reason, for every requested provider. */
module SelftestPlan {
  import opened Wrappers
  import opened TextOrder
  import opened AgentAllowlist
  import opened StableSort

  const LOCAL := "local"
  const UNKNOWN_SIZE: int := 0x7FFF_FFFF_FFFF_FFFF

  datatype Model = Model(provider: string, name: string, loaded: bool, size: int, available: bool, verified: bool,
                         source: string, tasks: seq<string>)
  datatype Session = Session(profile: string, state: string)
  datatype Node = Node(id: string, name: string, connected: bool, stale: bool, providers: seq<string>, models: seq<Model>,
                       sessions: seq<Session>, maxConcurrent: int, running: int)
  datatype Target = Target(kind: string, nodeID: string, nodeName: string, running: int, capacity: int,
                           model: string, loaded: bool, size: int)
  datatype Reason =
    | SlotsBusy | RequestedModelUnfit | NoGenerationModel | EndpointBusy | MakeEndpointAvailable | StaleOrOffline | NoWorker
  datatype Plan = Plan(targets: seq<Target>, missing: seq<(string, Reason)>)

  /** How text is folded, the requested local model, and whether the scheduler would place this work on a node. */
  datatype Setting = Setting(fold: Folding, requested: string, schedules: (Node, string, string) -> bool)

  predicate Same(f: Folding, text: string, wanted: string) {
    Normal(f, text) == Lower(f, wanted)
  }

  predicate ContainsFolded(f: Folding, values: seq<string>, wanted: string) {
    exists i :: 0 <= i < |values| && Same(f, values[i], wanted)
  }

  function Capacity(node: Node): int { if node.maxConcurrent < 1 then 1 else node.maxConcurrent }

  predicate HasFreeSlot(node: Node) { node.running < Capacity(node) }

  predicate Fresh(node: Node) { node.connected && !node.stale }

  // ----- The order of candidates -----

  function KnownSize(size: int): int { if size <= 0 then UNKNOWN_SIZE else size }

  /** Loaded first, then the smaller known size, then name, then identifier, as the comparator tests them. */
  predicate Before(a: Target, b: Target) {
    if a.loaded != b.loaded then a.loaded
    else if a.size != b.size && KnownSize(a.size) != KnownSize(b.size) then KnownSize(a.size) < KnownSize(b.size)
    else if a.nodeName != b.nodeName then Less(a.nodeName, b.nodeName)
    else Less(a.nodeID, b.nodeID)
  }

  /** Nothing tells the two apart. */
  predicate Tied(a: Target, b: Target) {
    a.loaded == b.loaded && KnownSize(a.size) == KnownSize(b.size) && a.nodeName == b.nodeName && a.nodeID == b.nodeID
  }

  lemma BeforeTotal(a: Target, b: Target)
    ensures Tied(a, b) <==> !Before(a, b) && !Before(b, a)
    ensures !(Before(a, b) && Before(b, a))
  {
    hide Less;
    LessTotal(a.nodeName, b.nodeName);
    LessTotal(a.nodeID, b.nodeID);
    LessAsymmetric(a.nodeName, b.nodeName);
    LessAsymmetric(a.nodeID, b.nodeID);
  }

  lemma LessAsymmetric(a: string, b: string)
    ensures !(Less(a, b) && Less(b, a))
  {
    if Less(a, b) && Less(b, a) {
      LessTransitive(a, b, a);
      LessIrreflexive(a);
    }
  }

  /** The comparator is a strict weak order, with unknown sizes counted as the largest. */
  lemma BeforeTransitive(a: Target, b: Target, c: Target)
    ensures Before(a, b) && Before(b, c) ==> Before(a, c)
    ensures Tied(a, b) && Tied(b, c) ==> Tied(a, c)
    ensures Tied(a, b) ==> (Before(a, c) <==> Before(b, c)) && (Before(c, a) <==> Before(c, b))
  {
    hide Less;
    if Less(a.nodeName, b.nodeName) && Less(b.nodeName, c.nodeName) {
      LessTransitive(a.nodeName, b.nodeName, c.nodeName);
    }
    if Less(a.nodeID, b.nodeID) && Less(b.nodeID, c.nodeID) {
      LessTransitive(a.nodeID, b.nodeID, c.nodeID);
    }
    LessAsymmetric(a.nodeName, b.nodeName);
    LessAsymmetric(b.nodeName, c.nodeName);
  }

  lemma BeforeIsStrictWeak()
    ensures StrictWeak(Before)
  {
    hide Before, Tied;
    forall a, b
      ensures !(Before(a, b) && Before(b, a))
    {
      BeforeTotal(a, b);
    }
    forall a, b, c | !Before(a, b) && !Before(b, c)
      ensures !Before(a, c)
    {
      NotBefore(a, b, c);
    }
  }

  lemma NotBefore(a: Target, b: Target, c: Target)
    requires !Before(a, b) && !Before(b, c)
    ensures !Before(a, c)
  {
    hide Before, Tied;
    BeforeTotal(a, b);
    BeforeTotal(b, c);
    BeforeTotal(a, c);
    BeforeTransitive(c, b, a);
    BeforeTransitive(a, b, c);
    BeforeTransitive(b, c, a);
  }

  // ----- Local models -----

  predicate Compatible(f: Folding, requested: string, m: Model) {
    var explicit := Trim(f, requested) != "";
    && Same(f, m.provider, "ollama") && Trim(f, m.name) != ""
    && (explicit ==> Same(f, m.name, requested))
    && (if explicit then
          !(m.source != "" && !m.available) && !(m.verified && !ContainsFolded(f, m.tasks, "generation"))
        else m.available && m.verified && ContainsFolded(f, m.tasks, "generation"))
  }

  predicate ModelBefore(f: Folding, a: Model, b: Model) {
    if a.loaded != b.loaded then a.loaded
    else if KnownSize(a.size) != KnownSize(b.size) then KnownSize(a.size) < KnownSize(b.size)
    else Less(Lower(f, a.name), Lower(f, b.name))
  }

  function ModelOrder(f: Folding): (before: (Model, Model) -> bool) {
    (a, b) => ModelBefore(f, a, b)
  }

  function Select(f: Folding, requested: string, models: seq<Model>): (r: seq<Model>) {
    if models == [] then []
    else
      var m := models[|models| - 1];
      Select(f, requested, models[..|models| - 1]) + (if Compatible(f, requested, m) then [m] else [])
  }

  function SortedModels(f: Folding, requested: string, models: seq<Model>): (r: seq<Model>) {
    SortStable(Select(f, requested, models), ModelOrder(f))
  }

  method CompatibleModels(f: Folding, requested: string, models: seq<Model>) returns (r: seq<Model>)
    ensures r == SortedModels(f, requested, models)
    ensures StablySorted(r, Select(f, requested, models), ModelOrder(f))
  {
    hide Compatible, SortStable, ModelOrder, StablySorted;
    r := [];
    for k := 0 to |models|
      invariant r == Select(f, requested, models[..k])
    {
      assert models[..k + 1][..k] == models[..k];
      if Compatible(f, requested, models[k]) {
        r := r + [models[k]];
      }
    }
    assert models[..|models|] == models;
    ModelBeforeIsStrictWeak(f);
    SortIsStablySorted(r, ModelOrder(f));
    r := SortStable(r, ModelOrder(f));
  }

  lemma ModelBeforeIsStrictWeak(f: Folding)
    ensures StrictWeak(ModelOrder(f))
  {
    hide Less, Lower;
    forall a: Model, b: Model
      ensures !(ModelBefore(f, a, b) && ModelBefore(f, b, a))
    {
      LessAsymmetric(Lower(f, a.name), Lower(f, b.name));
    }
    forall a: Model, b: Model, c: Model | !ModelBefore(f, a, b) && !ModelBefore(f, b, c)
      ensures !ModelBefore(f, a, c)
    {
      NotLess(Lower(f, a.name), Lower(f, b.name), Lower(f, c.name));
    }
  }

  lemma NotLess(a: string, b: string, c: string)
    ensures !Less(a, b) && !Less(b, c) ==> !Less(a, c)
  {
    LessTotal(a, b);
    LessTotal(b, c);
    LessAsymmetric(a, c);
    if Less(b, a) && Less(c, b) {
      LessTransitive(c, b, a);
    }
  }

  lemma {:induction false} Selected(f: Folding, requested: string, models: seq<Model>, m: Model)
    ensures m in Select(f, requested, models) <==> m in models && Compatible(f, requested, m)
  {
    hide Compatible;
    if models != [] {
      var k := |models| - 1;
      Selected(f, requested, models[..k], m);
      assert models == models[..k] + [models[k]];
    }
  }

  lemma {:induction false} SelectPosition(f: Folding, requested: string, models: seq<Model>, i: nat) returns (p: nat)
    requires i < |Select(f, requested, models)|
    ensures p < |models| && Compatible(f, requested, models[p]) && models[p] == Select(f, requested, models)[i]
    ensures Select(f, requested, models[..p]) == Select(f, requested, models)[..i]
    decreases |models|
  {
    hide Compatible;
    var k := |models| - 1;
    if i < |Select(f, requested, models[..k])| {
      p := SelectPosition(f, requested, models[..k], i);
      assert models[..k][..p] == models[..p];
    } else {
      p := k;
    }
  }

  /** The model a node is asked for: of the compatible ones that none is before, the first it advertises. */
  ghost predicate Preferred(f: Folding, requested: string, models: seq<Model>, p: int) {
    && 0 <= p < |models| && Compatible(f, requested, models[p])
    && forall j :: 0 <= j < |models| && Compatible(f, requested, models[j]) ==>
         !ModelBefore(f, models[j], models[p]) && (j < p ==> ModelBefore(f, models[p], models[j]))
  }

  /** Sorting stably and taking the head finds the preferred model. */
  lemma ChosenModelIsPreferred(f: Folding, requested: string, models: seq<Model>) returns (p: nat)
    requires SortedModels(f, requested, models) != []
    ensures p < |models| && Preferred(f, requested, models, p) && SortedModels(f, requested, models)[0] == models[p]
  {
    hide Compatible, ModelBefore, Select, SortStable;
    var before, chosen := ModelOrder(f), Select(f, requested, models);
    ModelBeforeIsStrictWeak(f);
    var i := HeadIsFirstLeast(chosen, before);
    p := SelectPosition(f, requested, models, i);
    forall j | 0 <= j < |models| && Compatible(f, requested, models[j])
      ensures !ModelBefore(f, models[j], models[p]) && (j < p ==> ModelBefore(f, models[p], models[j]))
    {
      Selected(f, requested, models, models[j]);
      var q :| 0 <= q < |chosen| && chosen[q] == models[j];
      assert !before(chosen[q], chosen[i]);
      if j < p {
        EarlierSelected(f, requested, models, j, p, i);
      }
    }
  }

  lemma EarlierSelected(f: Folding, requested: string, models: seq<Model>, j: nat, p: nat, i: nat)
    requires j < p < |models| && Compatible(f, requested, models[j]) && i < |Select(f, requested, models)|
    requires Select(f, requested, models[..p]) == Select(f, requested, models)[..i]
    requires models[p] == Select(f, requested, models)[i]
    requires IsFirstLeast(Select(f, requested, models), ModelOrder(f), i)
    ensures ModelBefore(f, models[p], models[j])
  {
    hide Compatible, ModelBefore, Select;
    var chosen := Select(f, requested, models);
    Selected(f, requested, models[..p], models[j]);
    assert models[..p][j] == models[j];
    var q :| 0 <= q < i && chosen[..i][q] == models[j];
    assert chosen[q] == models[j];
  }

  lemma OnePreferred(f: Folding, requested: string, models: seq<Model>, p: int, q: int)
    requires Preferred(f, requested, models, p) && Preferred(f, requested, models, q)
    ensures p == q
  {
    hide Compatible, ModelBefore;
  }

  // ----- What one node offers -----

  /** Candidates found, and what else was seen on the way. */
  datatype Scan = Scan(candidates: seq<Target>, stale: bool, provider: bool, slot: bool, profile: bool, busy: bool)

  const NOTHING := Scan([], false, false, false, false, false)

  function Merge(a: Scan, b: Scan): (c: Scan) {
    Scan(a.candidates + b.candidates, a.stale || b.stale, a.provider || b.provider, a.slot || b.slot,
         a.profile || b.profile, a.busy || b.busy)
  }

  function PlainTarget(node: Node, kind: string): (t: Target) {
    Target(kind, node.id, node.name, node.running, Capacity(node), "", false, 0)
  }

  function ModelTarget(node: Node, m: Model): (t: Target) {
    PlainTarget(node, LOCAL).(model := m.name, loaded := m.loaded, size := m.size)
  }

  predicate Advertises(setting: Setting, node: Node, kind: string) {
    if kind == LOCAL then
      ContainsFolded(setting.fold, node.providers, "ollama") && SortedModels(setting.fold, setting.requested, node.models) != []
    else
      && ContainsFolded(setting.fold, node.providers, "adapter")
      && exists i :: 0 <= i < |node.sessions| && Same(setting.fold, node.sessions[i].profile, kind)
  }

  function ScanLocal(setting: Setting, node: Node): (s: Scan) {
    var models := SortedModels(setting.fold, setting.requested, node.models);
    if !ContainsFolded(setting.fold, node.providers, "ollama") then NOTHING
    else if models == [] then NOTHING.(provider := true)
    else if !HasFreeSlot(node) then NOTHING.(provider := true, slot := true)
    else if !setting.schedules(node, "ollama", models[0].name) then NOTHING.(provider := true)
    else NOTHING.(provider := true, candidates := [ModelTarget(node, models[0])])
  }

  function ScanSession(setting: Setting, node: Node, kind: string, session: Session): (s: Scan) {
    if !Same(setting.fold, session.profile, kind) then NOTHING
    else if !Same(setting.fold, session.state, "waiting") then NOTHING.(profile := true, busy := true)
    else if !HasFreeSlot(node) then NOTHING.(profile := true, slot := true)
    else if !setting.schedules(node, "adapter", kind) then NOTHING.(profile := true, busy := true)
    else NOTHING.(profile := true, candidates := [PlainTarget(node, kind)])
  }

  function ScanSessions(setting: Setting, node: Node, kind: string, sessions: seq<Session>): (s: Scan) {
    if sessions == [] then NOTHING
    else Merge(ScanSessions(setting, node, kind, sessions[..|sessions| - 1]),
               ScanSession(setting, node, kind, sessions[|sessions| - 1]))
  }

  function ScanNode(setting: Setting, node: Node, kind: string): (s: Scan) {
    if !Fresh(node) then NOTHING.(stale := Advertises(setting, node, kind))
    else if kind == LOCAL then ScanLocal(setting, node)
    else if !ContainsFolded(setting.fold, node.providers, "adapter") then NOTHING
    else Merge(NOTHING.(provider := true), ScanSessions(setting, node, kind, node.sessions))
  }

  function ScanNodes(setting: Setting, nodes: seq<Node>, kind: string): (s: Scan) {
    if nodes == [] then NOTHING
    else Merge(ScanNodes(setting, nodes[..|nodes| - 1], kind), ScanNode(setting, nodes[|nodes| - 1], kind))
  }

  function ReasonFor(setting: Setting, kind: string, s: Scan): (r: Reason) {
    if s.slot then SlotsBusy
    else if kind == LOCAL && s.provider then (if setting.requested != "" then RequestedModelUnfit else NoGenerationModel)
    else if kind != LOCAL && s.profile && s.busy then EndpointBusy
    else if kind != LOCAL && s.provider then MakeEndpointAvailable
    else if s.stale then StaleOrOffline
    else NoWorker
  }

  function Decide(setting: Setting, kind: string, s: Scan, plan: Plan): (p: Plan) {
    if s.candidates == [] then plan.(missing := plan.missing + [(kind, ReasonFor(setting, kind, s))])
    else plan.(targets := plan.targets + [SortStable(s.candidates, Before)[0]])
  }

  function PlanOf(setting: Setting, nodes: seq<Node>, kinds: seq<string>): (p: Plan) {
    if kinds == [] then Plan([], [])
    else
      var kind := kinds[|kinds| - 1];
      Decide(setting, kind, ScanNodes(setting, nodes, kind), PlanOf(setting, nodes, kinds[..|kinds| - 1]))
  }

  // ----- The loops -----

  method ScanLocalNode(setting: Setting, node: Node, before: Scan) returns (s: Scan)
    ensures s == Merge(before, ScanLocal(setting, node))
  {
    hide ContainsFolded, SortedModels, Same;
    s := before;
    if !ContainsFolded(setting.fold, node.providers, "ollama") {
      return;
    }
    s := s.(provider := true);
    var models := CompatibleModels(setting.fold, setting.requested, node.models);
    if |models| == 0 {
      return;
    }
    if node.running >= Capacity(node) {
      s := s.(slot := true);
      return;
    }
    var m := models[0];
    if !setting.schedules(node, "ollama", m.name) {
      return;
    }
    s := s.(candidates := s.candidates + [Target(LOCAL, node.id, node.name, node.running, Capacity(node), m.name, m.loaded, m.size)]);
  }

  method ScanOneNode(setting: Setting, node: Node, kind: string, before: Scan) returns (s: Scan)
    ensures s == Merge(before, ScanNode(setting, node, kind))
  {
    hide ContainsFolded, ScanLocal, Advertises, ScanSessions, Merge;
    MergeFlags(before);
    s := before;
    if !node.connected || node.stale {
      if Advertises(setting, node, kind) {
        s := s.(stale := true);
      }
      return;
    }
    if kind == LOCAL {
      s := ScanLocalNode(setting, node, s);
    } else {
      if !ContainsFolded(setting.fold, node.providers, "adapter") {
        return;
      }
      s := s.(provider := true);
      s := ScanAllSessions(setting, node, kind, s);
      MergeAssociative(before, NOTHING.(provider := true), ScanSessions(setting, node, kind, node.sessions));
    }
  }

  lemma MergeFlags(a: Scan)
    ensures Merge(a, NOTHING.(stale := true)) == a.(stale := true) && Merge(a, NOTHING.(stale := false)) == a
    ensures Merge(a, NOTHING.(provider := true)) == a.(provider := true) && Merge(a, NOTHING) == a
  {
  }

  method ScanAllSessions(setting: Setting, node: Node, kind: string, before: Scan) returns (s: Scan)
    ensures s == Merge(before, ScanSessions(setting, node, kind, node.sessions))
  {
    hide Same;
    s := before;
    MergeNothing(before);
    for k := 0 to |node.sessions|
      invariant s == Merge(before, ScanSessions(setting, node, kind, node.sessions[..k]))
    {
      var session := node.sessions[k];
      assert node.sessions[..k + 1][..k] == node.sessions[..k];
      MergeAssociative(before, ScanSessions(setting, node, kind, node.sessions[..k]), ScanSession(setting, node, kind, session));
      s := ScanOneSession(setting, node, kind, session, s);
    }
    assert node.sessions[..|node.sessions|] == node.sessions;
  }

  method ScanOneSession(setting: Setting, node: Node, kind: string, session: Session, before: Scan) returns (s: Scan)
    ensures s == Merge(before, ScanSession(setting, node, kind, session))
  {
    hide Same;
    s := before;
    if !Same(setting.fold, session.profile, kind) {
      return;
    }
    s := s.(profile := true);
    if !Same(setting.fold, session.state, "waiting") {
      s := s.(busy := true);
      return;
    }
    if node.running >= Capacity(node) {
      s := s.(slot := true);
      return;
    }
    if !setting.schedules(node, "adapter", kind) {
      s := s.(busy := true);
      return;
    }
    s := s.(candidates := s.candidates + [Target(kind, node.id, node.name, node.running, Capacity(node), "", false, 0)]);
  }

  lemma MergeNothing(a: Scan)
    ensures Merge(a, NOTHING) == a && Merge(NOTHING, a) == a
  {
  }

  lemma MergeAssociative(a: Scan, b: Scan, c: Scan)
    ensures Merge(Merge(a, b), c) == Merge(a, Merge(b, c))
  {
    assert a.candidates + b.candidates + c.candidates == a.candidates + (b.candidates + c.candidates);
  }

  method BuildPlan(setting: Setting, nodes: seq<Node>, kinds: seq<string>) returns (plan: Plan)
    ensures plan == PlanOf(setting, nodes, kinds)
    ensures Answers(setting, nodes, kinds, plan) && |plan.targets| + |plan.missing| == |kinds|
  {
    hide ScanNode, Merge, SortStable, Answers;
    plan := Plan([], []);
    for k := 0 to |kinds|
      invariant plan == PlanOf(setting, nodes, kinds[..k])
    {
      var kind := kinds[k];
      var s := NOTHING;
      for i := 0 to |nodes|
        invariant s == ScanNodes(setting, nodes[..i], kind)
      {
        assert nodes[..i + 1][..i] == nodes[..i];
        s := ScanOneNode(setting, nodes[i], kind, s);
      }
      assert nodes[..|nodes|] == nodes;
      assert kinds[..k + 1][..k] == kinds[..k];
      if |s.candidates| == 0 {
        plan := plan.(missing := plan.missing + [(kind, ReasonFor(setting, kind, s))]);
      } else {
        plan := plan.(targets := plan.targets + [SortStable(s.candidates, Before)[0]]);
      }
    }
    assert kinds[..|kinds|] == kinds;
    PlanAnswers(setting, nodes, kinds);
    EveryKindAnswered(setting, nodes, kinds, plan);
  }

  // ----- What is chosen, and that node order does not matter -----

  predicate Waits(setting: Setting, kind: string, session: Session) {
    Same(setting.fold, session.profile, kind) && Same(setting.fold, session.state, "waiting")
  }

  /** An endpoint of the kind that cannot be used although its node has room, or that is not waiting at all. */
  predicate Blocked(setting: Setting, node: Node, kind: string, session: Session) {
    && Same(setting.fold, session.profile, kind)
    && (!Waits(setting, kind, session) || (HasFreeSlot(node) && !setting.schedules(node, "adapter", kind)))
  }

  lemma SessionShows(setting: Setting, node: Node, kind: string, e: Session, x: Target)
    requires kind != LOCAL
    ensures var s := ScanSession(setting, node, kind, e);
      && !s.stale && !s.provider && (s.busy ==> s.profile)
      && (x in s.candidates <==>
            && x == PlainTarget(node, kind) && HasFreeSlot(node) && setting.schedules(node, "adapter", kind)
            && Waits(setting, kind, e))
      && (s.slot <==> !HasFreeSlot(node) && Waits(setting, kind, e))
      && (s.busy <==> Blocked(setting, node, kind, e))
  {
    hide Same, SortedModels;
  }

  lemma {:induction false} SessionsShow(setting: Setting, node: Node, kind: string, sessions: seq<Session>, x: Target)
    requires kind != LOCAL
    ensures var s := ScanSessions(setting, node, kind, sessions);
      && !s.stale && !s.provider && (s.busy ==> s.profile)
      && (x in s.candidates <==>
            && x == PlainTarget(node, kind) && HasFreeSlot(node) && setting.schedules(node, "adapter", kind)
            && exists e :: e in sessions && Waits(setting, kind, e))
      && (s.slot <==> !HasFreeSlot(node) && exists e :: e in sessions && Waits(setting, kind, e))
      && (s.busy <==> exists e :: e in sessions && Blocked(setting, node, kind, e))
  {
    hide ScanSession, PlainTarget, HasFreeSlot, Waits, Blocked;
    if sessions != [] {
      var k := |sessions| - 1;
      SessionsShow(setting, node, kind, sessions[..k], x);
      SessionShows(setting, node, kind, sessions[k], x);
      assert forall e :: e in sessions <==> e in sessions[..k] || e == sessions[k];
    }
  }

  // The pool, described without the scan:

  predicate Provides(setting: Setting, node: Node, kind: string) {
    ContainsFolded(setting.fold, node.providers, if kind == LOCAL then "ollama" else "adapter")
  }

  /** Something on the node could take the work if a slot were free. */
  predicate Suits(setting: Setting, node: Node, kind: string) {
    if kind == LOCAL then exists m :: m in node.models && Compatible(setting.fold, setting.requested, m)
    else exists e :: e in node.sessions && Waits(setting, kind, e)
  }

  ghost predicate OffersModel(setting: Setting, node: Node, p: int, t: Target) {
    && Preferred(setting.fold, setting.requested, node.models, p)
    && setting.schedules(node, "ollama", node.models[p].name) && t == ModelTarget(node, node.models[p])
  }

  /** The node would take work of this kind as `t`: with its preferred model, or through a waiting endpoint. */
  ghost predicate Offers(setting: Setting, node: Node, kind: string, t: Target) {
    && Fresh(node) && Provides(setting, node, kind) && HasFreeSlot(node)
    && if kind == LOCAL then
         exists p :: OffersModel(setting, node, p, t)
       else Suits(setting, node, kind) && setting.schedules(node, "adapter", kind) && t == PlainTarget(node, kind)
  }

  /** A node offers one target at most. */
  lemma OneOffer(setting: Setting, node: Node, kind: string, t: Target, u: Target)
    requires Offers(setting, node, kind, t) && Offers(setting, node, kind, u)
    ensures t == u
  {
    hide Provides, Suits, Fresh, HasFreeSlot, Compatible, ModelBefore;
    if kind == LOCAL {
      var p :| OffersModel(setting, node, p, t);
      var q :| OffersModel(setting, node, q, u);
      OnePreferred(setting.fold, setting.requested, node.models, p, q);
    }
  }

  predicate Full(setting: Setting, node: Node, kind: string) {
    Fresh(node) && Provides(setting, node, kind) && Suits(setting, node, kind) && !HasFreeSlot(node)
  }

  predicate Obstructed(setting: Setting, node: Node, kind: string) {
    && Fresh(node) && Provides(setting, node, kind)
    && exists e :: e in node.sessions && Blocked(setting, node, kind, e)
  }

  predicate Lapsed(setting: Setting, node: Node, kind: string) {
    && !Fresh(node) && Provides(setting, node, kind)
    && if kind == LOCAL then Suits(setting, node, kind)
       else exists e :: e in node.sessions && Same(setting.fold, e.profile, kind)
  }

  lemma SomeModel(setting: Setting, models: seq<Model>)
    ensures SortedModels(setting.fold, setting.requested, models) != [] <==>
      exists m :: m in models && Compatible(setting.fold, setting.requested, m)
  {
    hide Compatible, SortStable, ModelBefore;
    var chosen := Select(setting.fold, setting.requested, models);
    forall m
      ensures m in chosen <==> m in models && Compatible(setting.fold, setting.requested, m)
    {
      Selected(setting.fold, setting.requested, models, m);
    }
    if chosen != [] {
      assert chosen[0] in chosen;
    }
  }

  lemma LocalShows(setting: Setting, node: Node, x: Target)
    requires Fresh(node)
    ensures var s := ScanNode(setting, node, LOCAL);
      && !s.stale && s.provider == Provides(setting, node, LOCAL) && s.slot == Full(setting, node, LOCAL)
      && (x in s.candidates <==> Offers(setting, node, LOCAL, x))
  {
    SomeModel(setting, node.models);
    OfferedModel(setting, node, x);
    hide Same, ContainsFolded, SortedModels, Compatible, OffersModel;
  }

  lemma OfferedModel(setting: Setting, node: Node, x: Target)
    ensures var models := SortedModels(setting.fold, setting.requested, node.models);
      (exists p :: OffersModel(setting, node, p, x)) <==>
        models != [] && setting.schedules(node, "ollama", models[0].name) && x == ModelTarget(node, models[0])
  {
    hide SortedModels, Compatible, Preferred;
    var f, requested := setting.fold, setting.requested;
    if SortedModels(f, requested, node.models) == [] {
      SomeModel(setting, node.models);
      NonePreferred(f, requested, node.models);
    } else {
      var p := ChosenModelIsPreferred(f, requested, node.models);
      forall q | OffersModel(setting, node, q, x)
        ensures q == p
      {
        OnePreferred(f, requested, node.models, p, q);
      }
      if setting.schedules(node, "ollama", node.models[p].name) && x == ModelTarget(node, node.models[p]) {
        assert OffersModel(setting, node, p, x);
      }
    }
  }

  lemma NonePreferred(f: Folding, requested: string, models: seq<Model>)
    requires !exists m :: m in models && Compatible(f, requested, m)
    ensures !exists p :: Preferred(f, requested, models, p)
  {
    hide Compatible, ModelBefore;
  }

  lemma AdapterShows(setting: Setting, node: Node, kind: string, x: Target)
    requires Fresh(node) && kind != LOCAL
    ensures var s := ScanNode(setting, node, kind);
      && !s.stale && s.provider == Provides(setting, node, kind) && s.slot == Full(setting, node, kind)
      && s.busy == Obstructed(setting, node, kind) && (s.busy ==> s.profile)
      && (x in s.candidates <==> Offers(setting, node, kind, x))
  {
    SessionsShow(setting, node, kind, node.sessions, x);
    hide Same, ContainsFolded, SortedModels, Compatible, Waits, Blocked, ScanSessions;
  }

  lemma LapsedShows(setting: Setting, node: Node, kind: string)
    requires !Fresh(node)
    ensures ScanNode(setting, node, kind) == NOTHING.(stale := Lapsed(setting, node, kind))
  {
    SomeModel(setting, node.models);
    hide Same, ContainsFolded, SortedModels, Compatible;
    assert (exists i :: 0 <= i < |node.sessions| && Same(setting.fold, node.sessions[i].profile, kind)) <==>
           exists e :: e in node.sessions && Same(setting.fold, e.profile, kind);
  }

  /** What the scan of one node reports, in terms of the node alone. */
  lemma NodeShows(setting: Setting, node: Node, kind: string, x: Target)
    ensures var s := ScanNode(setting, node, kind);
      && (x in s.candidates <==> Offers(setting, node, kind, x))
      && s.provider == (Fresh(node) && Provides(setting, node, kind))
      && s.slot == Full(setting, node, kind) && s.stale == Lapsed(setting, node, kind)
      && (kind != LOCAL ==> s.busy == Obstructed(setting, node, kind) && (s.busy ==> s.profile))
  {
    hide ScanNode, Provides, Suits, HasFreeSlot, Blocked, OffersModel;
    if !Fresh(node) {
      LapsedShows(setting, node, kind);
    } else if kind == LOCAL {
      LocalShows(setting, node, x);
    } else {
      AdapterShows(setting, node, kind, x);
    }
  }

  /** What a pool shows is what some node in it shows. */
  lemma {:induction false} PoolShows(setting: Setting, nodes: seq<Node>, kind: string, x: Target)
    ensures var s := ScanNodes(setting, nodes, kind);
      && (x in s.candidates <==> exists n :: n in nodes && x in ScanNode(setting, n, kind).candidates)
      && (s.stale <==> exists n :: n in nodes && ScanNode(setting, n, kind).stale)
      && (s.provider <==> exists n :: n in nodes && ScanNode(setting, n, kind).provider)
      && (s.slot <==> exists n :: n in nodes && ScanNode(setting, n, kind).slot)
      && (s.profile <==> exists n :: n in nodes && ScanNode(setting, n, kind).profile)
      && (s.busy <==> exists n :: n in nodes && ScanNode(setting, n, kind).busy)
  {
    hide ScanNode;
    if nodes != [] {
      var k := |nodes| - 1;
      PoolShows(setting, nodes[..k], kind, x);
      assert nodes == nodes[..k] + [nodes[k]];
      assert forall n :: n in nodes <==> n in nodes[..k] || n == nodes[k];
    }
  }

  ghost predicate DistinctIDs(nodes: seq<Node>) {
    forall m, n :: m in nodes && n in nodes && m.id == n.id ==> m == n
  }

  // ----- The plan, described without the scan -----

  ghost predicate Offered(setting: Setting, nodes: seq<Node>, kind: string) {
    exists n, t :: n in nodes && Offers(setting, n, kind, t)
  }

  /** Offered by some node, and no target any node offers comes before it. */
  ghost predicate BestOf(setting: Setting, nodes: seq<Node>, kind: string, t: Target) {
    && (exists n :: n in nodes && Offers(setting, n, kind, t))
    && forall n, x :: n in nodes && Offers(setting, n, kind, x) ==> !Before(x, t)
  }

  ghost predicate SomeFull(setting: Setting, nodes: seq<Node>, kind: string) {
    exists n :: n in nodes && Full(setting, n, kind)
  }

  ghost predicate SomeProvider(setting: Setting, nodes: seq<Node>, kind: string) {
    exists n :: n in nodes && Fresh(n) && Provides(setting, n, kind)
  }

  ghost predicate SomeObstructed(setting: Setting, nodes: seq<Node>, kind: string) {
    exists n :: n in nodes && Obstructed(setting, n, kind)
  }

  ghost predicate SomeLapsed(setting: Setting, nodes: seq<Node>, kind: string) {
    exists n :: n in nodes && Lapsed(setting, n, kind)
  }

  /** When a reason is the one given for a kind that no node offers; the seven cases exclude each other. */
  ghost predicate Explains(setting: Setting, nodes: seq<Node>, kind: string, r: Reason) {
    (r == SlotsBusy <==> SomeFull(setting, nodes, kind)) &&
    match r
    case SlotsBusy => true
    case RequestedModelUnfit => kind == LOCAL && setting.requested != "" && SomeProvider(setting, nodes, kind)
    case NoGenerationModel => kind == LOCAL && setting.requested == "" && SomeProvider(setting, nodes, kind)
    case EndpointBusy => kind != LOCAL && SomeObstructed(setting, nodes, kind)
    case MakeEndpointAvailable =>
      kind != LOCAL && SomeProvider(setting, nodes, kind) && !SomeObstructed(setting, nodes, kind)
    case StaleOrOffline => !SomeProvider(setting, nodes, kind) && SomeLapsed(setting, nodes, kind)
    case NoWorker => !SomeProvider(setting, nodes, kind) && !SomeLapsed(setting, nodes, kind)
  }

  lemma OneExplanation(setting: Setting, nodes: seq<Node>, kind: string, r: Reason, q: Reason)
    requires Explains(setting, nodes, kind, r) && Explains(setting, nodes, kind, q)
    ensures r == q
  {
    ObstructedProvides(setting, nodes, kind);
    hide SomeFull, SomeProvider, SomeObstructed, SomeLapsed;
  }

  lemma ObstructedProvides(setting: Setting, nodes: seq<Node>, kind: string)
    ensures SomeObstructed(setting, nodes, kind) ==> SomeProvider(setting, nodes, kind)
  {
    hide Provides, Blocked;
  }

  /** The scan of a pool, in terms of its nodes. */
  lemma PoolMeans(setting: Setting, nodes: seq<Node>, kind: string)
    ensures var s := ScanNodes(setting, nodes, kind);
      && (s.candidates != [] <==> Offered(setting, nodes, kind))
      && (s.provider <==> SomeProvider(setting, nodes, kind)) && (s.slot <==> SomeFull(setting, nodes, kind))
      && (s.stale <==> SomeLapsed(setting, nodes, kind))
      && (kind != LOCAL ==> (s.profile && s.busy <==> SomeObstructed(setting, nodes, kind)))
  {
    hide ScanNodes, ScanNode, Offers, Full, Lapsed, Obstructed, Provides, Fresh;
    var t := Target("", "", "", 0, 0, "", false, 0);
    PoolShows(setting, nodes, kind, t);
    forall n
      ensures ScanNode(setting, n, kind).provider == (Fresh(n) && Provides(setting, n, kind))
      ensures ScanNode(setting, n, kind).slot == Full(setting, n, kind)
      ensures ScanNode(setting, n, kind).stale == Lapsed(setting, n, kind)
      ensures kind != LOCAL ==> ScanNode(setting, n, kind).busy == Obstructed(setting, n, kind)
      ensures kind != LOCAL && ScanNode(setting, n, kind).busy ==> ScanNode(setting, n, kind).profile
    {
      NodeShows(setting, n, kind, t);
    }
    OfferedIsCandidate(setting, nodes, kind);
  }

  lemma OfferedIsCandidate(setting: Setting, nodes: seq<Node>, kind: string)
    ensures ScanNodes(setting, nodes, kind).candidates != [] <==> Offered(setting, nodes, kind)
  {
    hide ScanNodes, ScanNode, Offers;
    var s := ScanNodes(setting, nodes, kind).candidates;
    if s != [] {
      PoolShows(setting, nodes, kind, s[0]);
      var n :| n in nodes && s[0] in ScanNode(setting, n, kind).candidates;
      NodeShows(setting, n, kind, s[0]);
    }
    if n, t :| n in nodes && Offers(setting, n, kind, t) {
      NodeShows(setting, n, kind, t);
      PoolShows(setting, nodes, kind, t);
    }
  }

  lemma DecidedIsBest(setting: Setting, nodes: seq<Node>, kind: string)
    requires ScanNodes(setting, nodes, kind).candidates != []
    ensures BestOf(setting, nodes, kind, SortStable(ScanNodes(setting, nodes, kind).candidates, Before)[0])
  {
    hide ScanNodes, ScanNode, Before, SortStable, Offers;
    var s := ScanNodes(setting, nodes, kind).candidates;
    BeforeIsStrictWeak();
    var i := HeadIsFirstLeast(s, Before);
    var t := SortStable(s, Before)[0];
    PoolShows(setting, nodes, kind, t);
    var m :| m in nodes && t in ScanNode(setting, m, kind).candidates;
    NodeShows(setting, m, kind, t);
    forall n, x | n in nodes && Offers(setting, n, kind, x)
      ensures !Before(x, t)
    {
      NodeShows(setting, n, kind, x);
      PoolShows(setting, nodes, kind, x);
      var j :| 0 <= j < |s| && s[j] == x;
      assert !Before(s[j], s[i]);
    }
  }

  lemma ReasonExplains(setting: Setting, nodes: seq<Node>, kind: string)
    ensures Explains(setting, nodes, kind, ReasonFor(setting, kind, ScanNodes(setting, nodes, kind)))
  {
    hide ScanNodes, SomeFull, SomeProvider, SomeObstructed, SomeLapsed, Offered;
    PoolMeans(setting, nodes, kind);
    ObstructedProvides(setting, nodes, kind);
  }

  /**
   * A plan that answers for every requested kind, in order: the best target where some node offers the kind, and the one
   * reason that explains why not where none does.
   */
  ghost predicate Answers(setting: Setting, nodes: seq<Node>, kinds: seq<string>, p: Plan) {
    if kinds == [] then p == Plan([], [])
    else
      var k := |kinds| - 1;
      if Offered(setting, nodes, kinds[k]) then
        && p.targets != [] && BestOf(setting, nodes, kinds[k], p.targets[|p.targets| - 1])
        && Answers(setting, nodes, kinds[..k], p.(targets := p.targets[..|p.targets| - 1]))
      else
        && p.missing != [] && p.missing[|p.missing| - 1].0 == kinds[k]
        && Explains(setting, nodes, kinds[k], p.missing[|p.missing| - 1].1)
        && Answers(setting, nodes, kinds[..k], p.(missing := p.missing[..|p.missing| - 1]))
  }

  /** The plan answers every request. */
  lemma {:induction false} PlanAnswers(setting: Setting, nodes: seq<Node>, kinds: seq<string>)
    ensures Answers(setting, nodes, kinds, PlanOf(setting, nodes, kinds))
    decreases |kinds|
  {
    hide ScanNodes, SortStable, BestOf, Explains, Offered, ReasonFor;
    if kinds != [] {
      var k := |kinds| - 1;
      var kind := kinds[k];
      var p, s := PlanOf(setting, nodes, kinds[..k]), ScanNodes(setting, nodes, kind);
      PlanAnswers(setting, nodes, kinds[..k]);
      OfferedIsCandidate(setting, nodes, kind);
      if s.candidates == [] {
        ReasonExplains(setting, nodes, kind);
        LastDropped(p.missing, (kind, ReasonFor(setting, kind, s)));
      } else {
        DecidedIsBest(setting, nodes, kind);
        LastDropped(p.targets, SortStable(s.candidates, Before)[0]);
      }
    }
  }

  /** Each requested kind gets one target or one reason. */
  lemma {:induction false} EveryKindAnswered(setting: Setting, nodes: seq<Node>, kinds: seq<string>, p: Plan)
    requires Answers(setting, nodes, kinds, p)
    ensures |p.targets| + |p.missing| == |kinds|
    decreases |kinds|
  {
    hide BestOf, Explains, Offered;
    if kinds != [] {
      var k := |kinds| - 1;
      if Offered(setting, nodes, kinds[k]) {
        EveryKindAnswered(setting, nodes, kinds[..k], p.(targets := p.targets[..|p.targets| - 1]));
      } else {
        EveryKindAnswered(setting, nodes, kinds[..k], p.(missing := p.missing[..|p.missing| - 1]));
      }
    }
  }

  lemma LastDropped<T>(s: seq<T>, x: T)
    ensures (s + [x])[..|s + [x]| - 1] == s && (s + [x])[|s + [x]| - 1] == x
  {
  }

  lemma OneBest(setting: Setting, nodes: seq<Node>, kind: string, x: Target, y: Target)
    requires DistinctIDs(nodes) && BestOf(setting, nodes, kind, x) && BestOf(setting, nodes, kind, y)
    ensures x == y
  {
    hide Before, Offers;
    BeforeTotal(x, y);
    var m :| m in nodes && Offers(setting, m, kind, x);
    var n :| n in nodes && Offers(setting, n, kind, y);
    OfferedBy(setting, m, kind, x);
    OfferedBy(setting, n, kind, y);
    OneOffer(setting, m, kind, x, y);
  }

  lemma OfferedBy(setting: Setting, node: Node, kind: string, t: Target)
    requires Offers(setting, node, kind, t)
    ensures t.nodeID == node.id && t.kind == kind
  {
    hide Preferred;
  }

  /** With distinct node identifiers there is only one such plan. */
  lemma {:induction false} OneAnswer(setting: Setting, nodes: seq<Node>, kinds: seq<string>, p: Plan, q: Plan)
    requires DistinctIDs(nodes) && Answers(setting, nodes, kinds, p) && Answers(setting, nodes, kinds, q)
    ensures p == q
    decreases |kinds|
  {
    hide BestOf, Explains, Offered, DistinctIDs;
    if kinds != [] {
      var k := |kinds| - 1;
      if Offered(setting, nodes, kinds[k]) {
        var i, j := |p.targets| - 1, |q.targets| - 1;
        OneBest(setting, nodes, kinds[k], p.targets[i], q.targets[j]);
        OneAnswer(setting, nodes, kinds[..k], p.(targets := p.targets[..i]), q.(targets := q.targets[..j]));
        assert p.targets == p.targets[..i] + [p.targets[i]] && q.targets == q.targets[..j] + [q.targets[j]];
      } else {
        var i, j := |p.missing| - 1, |q.missing| - 1;
        OneExplanation(setting, nodes, kinds[k], p.missing[i].1, q.missing[j].1);
        OneAnswer(setting, nodes, kinds[..k], p.(missing := p.missing[..i]), q.(missing := q.missing[..j]));
        assert p.missing == p.missing[..i] + [p.missing[i]] && q.missing == q.missing[..j] + [q.missing[j]];
      }
    }
  }

  lemma {:induction false} AnswersSameMembers(setting: Setting, a: seq<Node>, b: seq<Node>, kinds: seq<string>, p: Plan)
    requires (forall n :: n in a <==> n in b) && Answers(setting, a, kinds, p)
    ensures Answers(setting, b, kinds, p)
    decreases |kinds|
  {
    hide BestOf, Explains, Offered;
    if kinds != [] {
      var k := |kinds| - 1;
      SameMembersMean(setting, a, b, kinds[k]);
      if Offered(setting, a, kinds[k]) {
        AnswersSameMembers(setting, a, b, kinds[..k], p.(targets := p.targets[..|p.targets| - 1]));
      } else {
        AnswersSameMembers(setting, a, b, kinds[..k], p.(missing := p.missing[..|p.missing| - 1]));
      }
    }
  }

  lemma SameMembersMean(setting: Setting, a: seq<Node>, b: seq<Node>, kind: string)
    requires forall n :: n in a <==> n in b
    ensures Offered(setting, a, kind) == Offered(setting, b, kind)
    ensures forall t :: BestOf(setting, a, kind, t) == BestOf(setting, b, kind, t)
    ensures forall r :: Explains(setting, a, kind, r) == Explains(setting, b, kind, r)
  {
    hide Offers, Full, Lapsed, Obstructed, Provides, Fresh, Before;
  }

  /** With distinct node identifiers, the plan does not depend on the order, or repetition, of the nodes. */
  lemma PlanIgnoresNodeOrder(setting: Setting, a: seq<Node>, b: seq<Node>, kinds: seq<string>)
    requires DistinctIDs(a) && forall n :: n in a <==> n in b
    ensures PlanOf(setting, a, kinds) == PlanOf(setting, b, kinds)
  {
    hide PlanOf, Answers;
    PlanAnswers(setting, a, kinds);
    PlanAnswers(setting, b, kinds);
    AnswersSameMembers(setting, b, a, kinds, PlanOf(setting, b, kinds));
    OneAnswer(setting, a, kinds, PlanOf(setting, a, kinds), PlanOf(setting, b, kinds));
  }
}
