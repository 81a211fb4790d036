/** What the counters and flags of the conformance core say about the whole run that produced them. */
module AdapterTrace {
  import opened Wrappers
  import opened AdapterProtocol

  // Below, `hist` is everything that happened before `e`.

  ghost predicate Reaches(cfg: Config, e: Event, route: Route) {
    e.Serve? && RouteOf(cfg, e.request) == route
  }

  // ----- Leases over a run -----

  /** The lease in force after a history: the first one, or the one of the latest rotation. */
  ghost function CurrentFence(cfg: Config, hist: seq<Event>): Fence
    decreases |hist|, 1
  {
    if hist == [] then Fence(cfg.leaseGeneration, cfg.leaseCapability)
    else
      var n := |hist| - 1;
      if RotatesAt(cfg, hist[..n], hist[n]) then Fence(CurrentFence(cfg, hist[..n]).generation + 1, hist[n].capability)
      else CurrentFence(cfg, hist[..n])
  }

  ghost predicate Rotated(cfg: Config, hist: seq<Event>)
    decreases |hist|, 1
  {
    exists k :: 0 <= k < |hist| && RotatesAt(cfg, hist[..k], hist[k])
  }

  ghost predicate RefusedIn(cfg: Config, hist: seq<Event>)
    decreases |hist|, 1
  {
    exists k :: 0 <= k < |hist| && RefusedClaim(cfg, hist[..k], hist[k])
  }

  /** A rotation that takes effect: after a refused claim, and only once. */
  ghost predicate RotatesAt(cfg: Config, hist: seq<Event>, e: Event)
    ensures RotatesAt(cfg, hist, e) ==> e.Rotate?
    decreases |hist|, 2
  {
    e.Rotate? && cfg.scenario == LeaseRotation && RefusedIn(cfg, hist) && !Rotated(cfg, hist)
  }

  /** A well-formed claim that quotes the lease in force. */
  ghost predicate ClaimAt(cfg: Config, hist: seq<Event>, e: Event)
    decreases |hist|, 2
  {
    Reaches(cfg, e, Claim) && Quotes(e.request, CurrentFence(cfg, hist)) && ClaimOk(e.request)
  }

  ghost predicate RefusedClaim(cfg: Config, hist: seq<Event>, e: Event)
    decreases |hist|, 3
  {
    ClaimAt(cfg, hist, e) && Refuses(cfg, Rotated(cfg, hist))
  }

  ghost predicate AcceptedClaim(cfg: Config, hist: seq<Event>, e: Event) {
    ClaimAt(cfg, hist, e) && !Refuses(cfg, Rotated(cfg, hist))
  }

  ghost predicate NoRotationSince(cfg: Config, hist: seq<Event>, k: nat) {
    forall j :: k <= j < |hist| ==> !RotatesAt(cfg, hist[..j], hist[j])
  }

  // ----- Other events that count -----

  ghost predicate AcceptedPoll(cfg: Config, hist: seq<Event>, e: Event) {
    Reaches(cfg, e, Next) && PollOk(cfg, e.request)
  }

  /** A poll that is given the job: the first since the start or since the rotation. */
  ghost predicate GrantAt(cfg: Config, hist: seq<Event>, e: Event) {
    && AcceptedPoll(cfg, hist, e)
    && !exists k :: 0 <= k < |hist| && AcceptedPoll(cfg, hist[..k], hist[k]) && NoRotationSince(cfg, hist, k)
  }

  ghost predicate ProgressAt(cfg: Config, hist: seq<Event>, e: Event)
    ensures ProgressAt(cfg, hist, e) ==> e.Serve? && e.request.progress.Some?
  {
    Reaches(cfg, e, ProgressRoute) && Quotes(e.request, CurrentFence(cfg, hist)) && ProgressOk(e.request)
  }

  ghost predicate LeaseCheckAt(cfg: Config, hist: seq<Event>, e: Event) {
    Reaches(cfg, e, Lease) && Quotes(e.request, CurrentFence(cfg, hist)) && LeaseOk(e.request)
  }

  ghost predicate CompletionAt(cfg: Config, hist: seq<Event>, e: Event) {
    && Reaches(cfg, e, Complete) && Quotes(e.request, CurrentFence(cfg, hist)) && CompletionOk(e.request)
    && (cfg.scenario == Cancellation || e.request.completion.value.encodes)
  }

  /** A completion that ends the job, which no completion of the cancellation scenario does. */
  ghost predicate FinishAt(cfg: Config, hist: seq<Event>, e: Event) {
    CompletionAt(cfg, hist, e) && cfg.scenario != Cancellation
  }

  ghost predicate RequestAt(cfg: Config, hist: seq<Event>, e: Event) {
    e.Serve?
  }

  /** A status probe, with or without the right credential, that reaches the status handler or its stand-in. */
  ghost predicate StatusAt(cfg: Config, hist: seq<Event>, e: Event) {
    e.Serve? && IsStatusProbe(e.request)
  }

  ghost predicate HeartbeatAt(cfg: Config, hist: seq<Event>, e: Event) {
    Reaches(cfg, e, HeartbeatRoute) && HeartbeatOk(cfg, e.request)
  }

  /** A later heartbeat that carries the endpoint capability handed out before. */
  ghost predicate RenewalAt(cfg: Config, hist: seq<Event>, e: Event) {
    && HeartbeatAt(cfg, hist, e) && Ever(cfg, HeartbeatAt, hist)
    && e.request.heartbeat.value.endpoints[0].capability == cfg.endpointCapability
  }

  ghost predicate PollPathAt(cfg: Config, hist: seq<Event>, e: Event) {
    e.Serve? && IsPoll(e.request)
  }

  ghost predicate PollAfterFinish(cfg: Config, hist: seq<Event>, e: Event) {
    PollPathAt(cfg, hist, e) && Ever(cfg, FinishAt, hist)
  }

  ghost predicate PollAfterRefusal(cfg: Config, hist: seq<Event>, e: Event) {
    PollPathAt(cfg, hist, e) && RefusedIn(cfg, hist) && !Rotated(cfg, hist)
  }

  /** The job is cancelled: by a second lease check, or by completing without one. */
  ghost predicate CancelledIn(cfg: Config, hist: seq<Event>) {
    cfg.scenario == Cancellation && (Ever(cfg, CompletionAt, hist) || Count(cfg, LeaseCheckAt, hist) >= 2)
  }

  ghost predicate PollAfterCancel(cfg: Config, hist: seq<Event>, e: Event) {
    PollPathAt(cfg, hist, e) && CancelledIn(cfg, hist)
  }

  type Occasion = (Config, seq<Event>, Event) -> bool

  ghost predicate Ever(cfg: Config, p: Occasion, t: seq<Event>) {
    exists k :: 0 <= k < |t| && p(cfg, t[..k], t[k])
  }

  ghost function Count(cfg: Config, p: Occasion, t: seq<Event>): (n: nat) {
    if t == [] then 0
    else Count(cfg, p, t[..|t| - 1]) + (if p(cfg, t[..|t| - 1], t[|t| - 1]) then 1 else 0)
  }

  // ----- The protocol an adapter must keep -----

  /** The number exceeds every earlier progress number under the same lease. */
  ghost predicate Increases(cfg: Config, hist: seq<Event>, n: nat) {
    forall k :: 0 <= k < |hist| && ProgressAt(cfg, hist[..k], hist[k]) && NoRotationSince(cfg, hist, k) ==>
      hist[k].request.progress.value.sequence < n
  }

  ghost predicate LeaseActionObeys(cfg: Config, hist: seq<Event>, r: Request, route: Route) {
    Quotes(r, CurrentFence(cfg, hist)) &&
    match route
    case Claim => ClaimOk(r)
    case ProgressRoute => ProgressOk(r) && Increases(cfg, hist, r.progress.value.sequence)
    case Lease => LeaseOk(r)
    case Release => r.verb == "POST"
    case Complete =>
      && CompletionOk(r) && cfg.scenario != Cancellation && r.completion.value.encodes
      && Ever(cfg, AcceptedClaim, hist)
      && r.completion.value.hasMode && !r.completion.value.hasError && r.completion.value.normalizes
    case _ => false
  }

  ghost predicate Obeys(cfg: Config, hist: seq<Event>, e: Event) {
    match e
    case Rotate(_) => true
    case ProcessFailure => false
    case Serve(r) =>
      match RouteOf(cfg, r)
      case NoCredential => IsStatusProbe(r)
      case Down => IsStatusProbe(r)
      case Status => true
      case Profiles => true
      case HeartbeatRoute => HeartbeatOk(cfg, r)
      case Next => PollOk(cfg, r)
      case Elsewhere => false
      case route => LeaseActionObeys(cfg, hist, r, route)
  }

  ghost predicate Obedient(cfg: Config, t: seq<Event>) {
    forall k :: 0 <= k < |t| ==> Obeys(cfg, t[..k], t[k])
  }

  // ----- Histories grow by one event -----

  lemma EverNext(cfg: Config, p: Occasion, t: seq<Event>)
    requires t != []
    ensures Ever(cfg, p, t) <==> Ever(cfg, p, t[..|t| - 1]) || p(cfg, t[..|t| - 1], t[|t| - 1])
  {
    var h := t[..|t| - 1];
    assert forall k :: 0 <= k < |h| ==> h[..k] == t[..k] && h[k] == t[k];
  }

  lemma RotatedNext(cfg: Config, t: seq<Event>)
    requires t != []
    ensures Rotated(cfg, t) <==> Rotated(cfg, t[..|t| - 1]) || RotatesAt(cfg, t[..|t| - 1], t[|t| - 1])
  {
    hide RotatesAt;
    var h := t[..|t| - 1];
    assert forall k :: 0 <= k < |h| ==> h[..k] == t[..k] && h[k] == t[k];
  }

  lemma RefusedNext(cfg: Config, t: seq<Event>)
    requires t != []
    ensures RefusedIn(cfg, t) <==> RefusedIn(cfg, t[..|t| - 1]) || RefusedClaim(cfg, t[..|t| - 1], t[|t| - 1])
  {
    hide RefusedClaim;
    var h := t[..|t| - 1];
    assert forall k :: 0 <= k < |h| ==> h[..k] == t[..k] && h[k] == t[k];
  }

  lemma ObedientNext(cfg: Config, t: seq<Event>)
    requires t != []
    ensures Obedient(cfg, t) <==> Obedient(cfg, t[..|t| - 1]) && Obeys(cfg, t[..|t| - 1], t[|t| - 1])
  {
    hide Obeys;
    var h := t[..|t| - 1];
    assert forall k :: 0 <= k < |h| ==> h[..k] == t[..k] && h[k] == t[k];
  }

  lemma RunNext(cfg: Config, t: seq<Event>)
    requires t != []
    ensures Run(cfg, t) == Step(cfg, Run(cfg, t[..|t| - 1]), t[|t| - 1])
  {
    hide Step, Initial;
  }

  // ----- What one request does, handler by handler -----

  /** What a request amounts to under a given lease. */
  datatype Effect = Effect(poll: bool, claim: bool, progress: bool, lease: bool, completion: bool, status: bool,
                           heartbeat: bool, echo: bool)

  ghost function EffectOf(cfg: Config, fence: Fence, r: Request, route: Route): Effect {
    Effect(route.Next? && PollOk(cfg, r),
           route.Claim? && Quotes(r, fence) && ClaimOk(r),
           route.ProgressRoute? && Quotes(r, fence) && ProgressOk(r),
           route.Lease? && Quotes(r, fence) && LeaseOk(r),
           route.Complete? && Quotes(r, fence) && CompletionOk(r)
             && (cfg.scenario == Cancellation || r.completion.value.encodes),
           (route.NoCredential? || route.Down? || route.Status?) && (route.Status? || IsStatusProbe(r)),
           route.HeartbeatRoute? && HeartbeatOk(cfg, r),
           route.HeartbeatRoute? && Echoes(cfg, r))
  }

  ghost predicate Echoes(cfg: Config, r: Request) {
    HeartbeatOk(cfg, r) && r.heartbeat.value.endpoints[0].capability == cfg.endpointCapability
  }

  ghost function FlagsAfter(cfg: Config, s: Core, f: Effect): Flags {
    var refuses, cancels := Refuses(cfg, s.flags.rotationReady), cfg.scenario == Cancellation;
    s.flags.(jobDelivered := s.flags.jobDelivered || f.poll,
             claimed := s.flags.claimed || (f.claim && !refuses),
             leaseRejected := s.flags.leaseRejected || (f.claim && refuses),
             completed := s.flags.completed || (f.completion && !cancels),
             cancelled := s.flags.cancelled
               || (cancels && (f.completion || (f.lease && s.counts.leaseRequests + 1 >= 2))),
             echoedEndpointCapability := s.flags.echoedEndpointCapability || (f.echo && s.counts.heartbeats > 0))
  }

  ghost function Tick(b: bool): nat { if b then 1 else 0 }

  ghost predicate CountsMove(s: Core, t: Core, f: Effect) {
    && t.counts.claimRequests == s.counts.claimRequests + Tick(f.claim)
    && t.counts.progressRequests == s.counts.progressRequests + Tick(f.progress)
    && t.counts.leaseRequests == s.counts.leaseRequests + Tick(f.lease)
    && t.counts.leaseGrants == s.counts.leaseGrants + Tick(f.poll && !s.flags.jobDelivered)
    && t.counts.completeRequests == s.counts.completeRequests + Tick(f.completion)
    && t.counts.statusRequests == s.counts.statusRequests + Tick(f.status)
    && t.counts.heartbeats == s.counts.heartbeats + Tick(f.heartbeat)
  }

  ghost predicate MarksMove(cfg: Config, s: Core, t: Core, f: Effect, progress: nat) {
    && t.marks.progressSequence == (if f.progress then progress else s.marks.progressSequence)
    && t.marks.claimSequence ==
         (if f.claim && !Refuses(cfg, s.flags.rotationReady) then s.counts.requestSequence else s.marks.claimSequence)
    && t.marks.completeSequence == (if f.completion then s.counts.requestSequence else s.marks.completeSequence)
  }

  /** Everything a handler changes, except which fault it records. */
  ghost predicate Moves(cfg: Config, s: Core, t: Core, f: Effect, progress: nat) {
    && t.fence == s.fence && t.late == s.late
    && t.flags == FlagsAfter(cfg, s, f) && CountsMove(s, t, f) && MarksMove(cfg, s, t, f, progress)
    && t.counts.requestSequence == s.counts.requestSequence && t.counts.totalRequests == s.counts.totalRequests
    && (s.violation.Some? ==> t.violation == s.violation)
  }

  ghost function Number(r: Request): nat {
    if r.progress.Some? then r.progress.value.sequence else 0
  }

  const NOTHING := Effect(false, false, false, false, false, false, false, false)

  lemma HeartbeatMoves(cfg: Config, s: Core, r: Request)
    ensures Moves(cfg, s, DoHeartbeat(cfg, s, r), NOTHING.(heartbeat := HeartbeatOk(cfg, r), echo := Echoes(cfg, r)), Number(r))
    ensures s.violation.None? ==> (DoHeartbeat(cfg, s, r).violation.None? <==> HeartbeatOk(cfg, r))
  {
  }

  lemma NextMoves(cfg: Config, s: Core, r: Request)
    ensures Moves(cfg, s, DoNext(cfg, s, r), NOTHING.(poll := PollOk(cfg, r)), Number(r))
    ensures s.violation.None? ==> (DoNext(cfg, s, r).violation.None? <==> PollOk(cfg, r))
  {
    hide PollOk;
  }

  lemma ClaimMoves(cfg: Config, s: Core, r: Request)
    ensures Moves(cfg, s, DoClaim(cfg, s, r), NOTHING.(claim := ClaimOk(r)), Number(r))
    ensures s.violation.None? ==> (DoClaim(cfg, s, r).violation.None? <==> ClaimOk(r))
  {
    hide ClaimOk;
  }

  lemma ProgressMoves(cfg: Config, s: Core, r: Request)
    ensures Moves(cfg, s, DoProgress(s, r), NOTHING.(progress := ProgressOk(r)), Number(r))
    ensures s.violation.None? ==>
      (DoProgress(s, r).violation.None? <==> ProgressOk(r) && s.marks.progressSequence < r.progress.value.sequence)
  {
  }

  lemma LeaseMoves(cfg: Config, s: Core, r: Request)
    ensures Moves(cfg, s, DoLease(cfg, s, r), NOTHING.(lease := LeaseOk(r)), Number(r))
    ensures s.violation.None? ==> (DoLease(cfg, s, r).violation.None? <==> LeaseOk(r))
  {
    hide LeaseOk;
  }

  /** A completion that shows no fault when work was claimed. */
  ghost predicate Usable(cfg: Config, r: Request) {
    && CompletionOk(r) && cfg.scenario != Cancellation && r.completion.value.encodes
    && r.completion.value.hasMode && !r.completion.value.hasError && r.completion.value.normalizes
  }

  lemma CompleteMoves(cfg: Config, s: Core, r: Request)
    ensures Moves(cfg, s, DoComplete(cfg, s, r),
                  NOTHING.(completion := CompletionOk(r) && (cfg.scenario == Cancellation || r.completion.value.encodes)), Number(r))
  {
    hide CompletionFault;
  }

  lemma CompleteFault(cfg: Config, s: Core, r: Request)
    ensures s.violation.None? ==> (DoComplete(cfg, s, r).violation.None? <==> Usable(cfg, r) && s.flags.claimed)
  {
  }

  lemma StillMoves(cfg: Config, s: Core, r: Request, v: Violation)
    ensures Moves(cfg, s, s, NOTHING, Number(r))
    ensures Moves(cfg, s, Violate(s, v), NOTHING, Number(r)) && Violate(s, v).violation.Some?
    ensures Moves(cfg, s, CountStatus(s), NOTHING.(status := true), Number(r)) && CountStatus(s).violation == s.violation
  {
  }

  /** Whether a request records no fault in state `s`. */
  ghost predicate Accepts(cfg: Config, s: Core, r: Request, route: Route) {
    match route
    case NoCredential => IsStatusProbe(r)
    case Down => IsStatusProbe(r)
    case Status => true
    case Profiles => true
    case HeartbeatRoute => HeartbeatOk(cfg, r)
    case Next => PollOk(cfg, r)
    case Elsewhere => false
    case _ => Quotes(r, s.fence) && LeaseAccepts(cfg, s, r, route)
  }

  ghost predicate LeaseAccepts(cfg: Config, s: Core, r: Request, route: Route) {
    match route
    case Claim => ClaimOk(r)
    case ProgressRoute => ProgressOk(r) && s.marks.progressSequence < r.progress.value.sequence
    case Lease => LeaseOk(r)
    case Release => r.verb == "POST"
    case Complete => Usable(cfg, r) && s.flags.claimed
    case _ => false
  }

  lemma LeaseActionMoves(cfg: Config, s: Core, r: Request, route: Route)
    requires IsLeaseRoute(route) && Quotes(r, s.fence)
    ensures var t := DoLeaseAction(cfg, s, r, route);
      && Moves(cfg, s, t, EffectOf(cfg, s.fence, r, route), Number(r))
      && (s.violation.None? ==> (t.violation.None? <==> LeaseAccepts(cfg, s, r, route)))
  {
    hide DoClaim, DoProgress, DoLease, DoComplete, ClaimOk, ProgressOk, LeaseOk, CompletionOk, Quotes, Usable, Moves, Violate;
    match route
    case Claim => ClaimMoves(cfg, s, r);
    case ProgressRoute => ProgressMoves(cfg, s, r);
    case Lease => LeaseMoves(cfg, s, r);
    case Release => StillMoves(cfg, s, r, BadReleaseMethod);
    case Complete => CompleteMoves(cfg, s, r); CompleteFault(cfg, s, r);
    case UnknownAction => StillMoves(cfg, s, r, UnknownLeaseAction);
  }

  lemma DispatchMoves(cfg: Config, s: Core, r: Request, route: Route)
    ensures var t := Dispatch(cfg, s, r, route);
      && Moves(cfg, s, t, EffectOf(cfg, s.fence, r, route), Number(r))
      && (s.violation.None? ==> (t.violation.None? <==> Accepts(cfg, s, r, route)))
  {
    hide DoHeartbeat, DoNext, DoLeaseAction, HeartbeatOk, PollOk, ClaimOk, ProgressOk, LeaseOk, CompletionOk, Quotes,
      LeaseAccepts, Moves, Violate, CountStatus, IsStatusProbe;
    if IsLeaseRoute(route) {
      if Quotes(r, s.fence) {
        LeaseActionMoves(cfg, s, r, route);
      } else {
        UnfencedMoves(cfg, s, r, route);
      }
    } else {
      match route
      case HeartbeatRoute => HeartbeatMoves(cfg, s, r);
      case Next => NextMoves(cfg, s, r);
      case NoCredential => StillMoves(cfg, s, r, StatusNotProbed);
      case Down => StillMoves(cfg, s, r, NotBegunWithStatus);
      case _ => StillMoves(cfg, s, r, OutsideSurface);
    }
  }

  lemma UnfencedMoves(cfg: Config, s: Core, r: Request, route: Route)
    requires IsLeaseRoute(route) && !Quotes(r, s.fence)
    ensures var t := DoLeaseAction(cfg, s, r, route);
      && Moves(cfg, s, t, EffectOf(cfg, s.fence, r, route), Number(r)) && t.violation.Some?
  {
    hide Moves, Violate;
    StillMoves(cfg, s, r, BadFence);
  }

  ghost function EventEffect(cfg: Config, fence: Fence, e: Event): Effect {
    if e.Serve? then EffectOf(cfg, fence, e.request, RouteOf(cfg, e.request)) else NOTHING
  }

  /** A served request moves the state by its effect under the lease in force. */
  lemma StepServe(cfg: Config, s: Core, e: Event)
    requires e.Serve?
    ensures var t := Step(cfg, s, e); var f := EventEffect(cfg, s.fence, e);
      && t.fence == s.fence && t.late == CountRequest(s, e.request).late
      && t.flags == FlagsAfter(cfg, s, f) && CountsMove(s, t, f)
      && MarksMove(cfg, s.(counts := CountRequest(s, e.request).counts), t, f, Number(e.request))
      && t.counts.requestSequence == s.counts.requestSequence + 1 && t.counts.totalRequests == s.counts.totalRequests + 1
  {
    hide Dispatch, EffectOf, RouteOf, IsPoll;
    CountKeeps(s, e.request);
    DispatchMoves(cfg, CountRequest(s, e.request), e.request, RouteOf(cfg, e.request));
  }

  lemma StepViolation(cfg: Config, s: Core, e: Event)
    ensures s.violation.Some? ==> Step(cfg, s, e).violation == s.violation
    ensures s.violation.None? ==>
      (Step(cfg, s, e).violation.None? <==>
         e.Rotate? || (e.Serve? && Accepts(cfg, s, e.request, RouteOf(cfg, e.request))))
  {
    hide Dispatch, EffectOf, RouteOf, IsPoll, CountRequest, HeartbeatOk, PollOk, ClaimOk, ProgressOk, LeaseOk, Usable, Quotes,
      IsStatusProbe;
    if e.Serve? {
      CountKeeps(s, e.request);
      DispatchMoves(cfg, CountRequest(s, e.request), e.request, RouteOf(cfg, e.request));
    }
  }

  lemma CountKeeps(s: Core, r: Request)
    ensures var t := CountRequest(s, r);
      && t.fence == s.fence && t.marks == s.marks && t.flags == s.flags && t.violation == s.violation
      && t.counts == s.counts.(requestSequence := s.counts.requestSequence + 1, totalRequests := s.counts.totalRequests + 1)
  {
    hide IsPoll;
  }

  // ----- Leases: the fields are those of the run -----

  /**
   * The lease fields of the core are those of the run. A lease rotates at most once, only after a refused claim and
   * only where rotation is tested; the generation rises by one then, without wrapping.
   */
  lemma {:induction false} RunLease(cfg: Config, t: seq<Event>)
    requires ValidConfig(cfg)
    ensures var s := Run(cfg, t);
      && s.fence == CurrentFence(cfg, t)
      && s.flags.rotationReady == s.flags.leaseRotated == Rotated(cfg, t)
      && s.flags.leaseRejected == RefusedIn(cfg, t)
      && s.fence.generation == cfg.leaseGeneration + (if Rotated(cfg, t) then 1 else 0)
      && (Rotated(cfg, t) ==> cfg.scenario == LeaseRotation && RefusedIn(cfg, t))
  {
    hide Run, Step;
    if t == [] {
      RunEmpty(cfg);
    } else {
      var n := |t| - 1;
      RunLease(cfg, t[..n]);
      RunNext(cfg, t);
      RotatedNext(cfg, t);
      RefusedNext(cfg, t);
      StepLease(cfg, Run(cfg, t[..n]), t[..n], t[n]);
      hide Rotated, RefusedIn;
    }
  }

  lemma RunEmpty(cfg: Config)
    ensures Run(cfg, []) == Initial(cfg)
  {
  }

  lemma StepLease(cfg: Config, s: Core, hist: seq<Event>, e: Event)
    requires s.fence == CurrentFence(cfg, hist) && s.flags.rotationReady == Rotated(cfg, hist)
    requires s.flags.leaseRejected == RefusedIn(cfg, hist) && s.fence.generation + 1 < U64
    ensures var t := Step(cfg, s, e); var rotates := RotatesAt(cfg, hist, e);
      && t.fence == (if rotates then Fence(s.fence.generation + 1, e.capability) else s.fence)
      && t.flags.rotationReady == (s.flags.rotationReady || rotates)
      && t.flags.leaseRotated == (s.flags.leaseRotated || rotates)
      && t.flags.leaseRejected == (s.flags.leaseRejected || RefusedClaim(cfg, hist, e))
  {
    hide CurrentFence, Rotated, RefusedIn, RouteOf, ClaimOk, Quotes, ServeRequest;
    if e.Serve? {
      StepServe(cfg, s, e);
    }
  }

  lemma RotatedLater(cfg: Config, t: seq<Event>, k: nat)
    requires k <= |t| && Rotated(cfg, t[..k])
    ensures Rotated(cfg, t)
  {
    hide RotatesAt;
    var j :| 0 <= j < k && RotatesAt(cfg, t[..k][..j], t[..k][j]);
    assert t[..k][..j] == t[..j];
  }

  /** Where rotation is tested, no claim is accepted before the lease has rotated. */
  lemma NoClaimBeforeRotation(cfg: Config, t: seq<Event>)
    requires cfg.scenario == LeaseRotation && Ever(cfg, AcceptedClaim, t)
    ensures Rotated(cfg, t)
  {
    hide Rotated, ClaimAt;
    var k :| 0 <= k < |t| && AcceptedClaim(cfg, t[..k], t[k]);
    RotatedLater(cfg, t, k);
  }

  lemma NoneYet(cfg: Config, p: Occasion)
    ensures !Ever(cfg, p, []) && Count(cfg, p, []) == 0
  {
  }

  /** A claim counts as accepted, and work as finished, exactly when the run has such an event. */
  lemma {:induction false} RunClaims(cfg: Config, t: seq<Event>)
    requires ValidConfig(cfg)
    ensures Run(cfg, t).flags.claimed == Ever(cfg, AcceptedClaim, t)
    ensures Run(cfg, t).flags.completed == Ever(cfg, FinishAt, t)
  {
    hide Run, Step, Rotated, RefusedIn, CurrentFence, Ever;
    NoneYet(cfg, AcceptedClaim);
    NoneYet(cfg, FinishAt);
    if t == [] {
      RunEmpty(cfg);
    } else {
      var n := |t| - 1;
      RunClaims(cfg, t[..n]);
      RunNext(cfg, t);
      RunLease(cfg, t[..n]);
      EverNext(cfg, AcceptedClaim, t);
      EverNext(cfg, FinishAt, t);
      if cfg.scenario == LeaseRotation && Ever(cfg, AcceptedClaim, t[..n]) {
        NoClaimBeforeRotation(cfg, t[..n]);
      }
      StepClaims(cfg, Run(cfg, t[..n]), t[..n], t[n]);
    }
  }

  lemma StepClaims(cfg: Config, s: Core, hist: seq<Event>, e: Event)
    requires s.fence == CurrentFence(cfg, hist) && s.flags.rotationReady == Rotated(cfg, hist)
    requires cfg.scenario == LeaseRotation && s.flags.claimed ==> s.flags.rotationReady
    ensures Step(cfg, s, e).flags.claimed == (s.flags.claimed || AcceptedClaim(cfg, hist, e))
    ensures Step(cfg, s, e).flags.completed == (s.flags.completed || FinishAt(cfg, hist, e))
  {
    hide CurrentFence, Rotated, RefusedIn, RouteOf, ClaimOk, CompletionOk, Quotes, ServeRequest;
    if e.Serve? {
      StepServe(cfg, s, e);
    }
  }

  // ----- Counters are counts over the run -----

  lemma StepCounts(cfg: Config, s: Core, hist: seq<Event>, e: Event)
    requires s.fence == CurrentFence(cfg, hist)
    ensures var t := Step(cfg, s, e);
      && t.counts.claimRequests == s.counts.claimRequests + Tick(ClaimAt(cfg, hist, e))
      && t.counts.progressRequests == s.counts.progressRequests + Tick(ProgressAt(cfg, hist, e))
      && t.counts.leaseRequests == s.counts.leaseRequests + Tick(LeaseCheckAt(cfg, hist, e))
      && t.counts.completeRequests == s.counts.completeRequests + Tick(CompletionAt(cfg, hist, e))
  {
    hide CurrentFence, RouteOf, ClaimOk, ProgressOk, LeaseOk, CompletionOk, Quotes, ServeRequest;
    if e.Serve? {
      StepServe(cfg, s, e);
    }
  }

  /** Claims, progress reports, lease checks and completions are counted exactly. */
  lemma {:induction false} RunCounts(cfg: Config, t: seq<Event>)
    requires ValidConfig(cfg)
    ensures var c := Run(cfg, t).counts;
      && c.claimRequests == Count(cfg, ClaimAt, t)
      && c.progressRequests == Count(cfg, ProgressAt, t)
      && c.leaseRequests == Count(cfg, LeaseCheckAt, t)
      && c.completeRequests == Count(cfg, CompletionAt, t)
  {
    hide Run, Step, CurrentFence, ClaimAt, ProgressAt, LeaseCheckAt, CompletionAt;
    if t == [] {
      RunEmpty(cfg);
    } else {
      var n := |t| - 1;
      RunCounts(cfg, t[..n]);
      RunNext(cfg, t);
      RunLease(cfg, t[..n]);
      StepCounts(cfg, Run(cfg, t[..n]), t[..n], t[n]);
    }
  }

  lemma StepLate(cfg: Config, s: Core, hist: seq<Event>, e: Event)
    requires s.flags.completed == Ever(cfg, FinishAt, hist) && s.flags.leaseRejected == RefusedIn(cfg, hist)
    requires s.flags.rotationReady == Rotated(cfg, hist)
    ensures var t := Step(cfg, s, e);
      && t.late.afterComplete == s.late.afterComplete + Tick(PollAfterFinish(cfg, hist, e))
      && t.late.afterLeaseRejection == s.late.afterLeaseRejection + Tick(PollAfterRefusal(cfg, hist, e))
  {
    hide Ever, RefusedIn, Rotated, IsPoll, ServeRequest;
    if e.Serve? {
      StepServe(cfg, s, e);
    }
  }

  /** Polls after the work was finished, or after a refused claim, are counted exactly. */
  lemma {:induction false} RunLatePolls(cfg: Config, t: seq<Event>)
    requires ValidConfig(cfg)
    ensures Run(cfg, t).late.afterComplete == Count(cfg, PollAfterFinish, t)
    ensures Run(cfg, t).late.afterLeaseRejection == Count(cfg, PollAfterRefusal, t)
  {
    hide Run, Step, CurrentFence, Rotated, RefusedIn, PollAfterFinish, PollAfterRefusal, Ever;
    if t == [] {
      RunEmpty(cfg);
    } else {
      var n := |t| - 1;
      RunLatePolls(cfg, t[..n]);
      RunNext(cfg, t);
      RunLease(cfg, t[..n]);
      RunClaims(cfg, t[..n]);
      StepLate(cfg, Run(cfg, t[..n]), t[..n], t[n]);
    }
  }

  // ----- Grants -----

  ghost predicate Delivered(cfg: Config, t: seq<Event>) {
    exists k :: 0 <= k < |t| && AcceptedPoll(cfg, t[..k], t[k]) && NoRotationSince(cfg, t, k)
  }

  lemma NoRotationNext(cfg: Config, t: seq<Event>, k: nat)
    requires k < |t|
    ensures var n := |t| - 1;
      NoRotationSince(cfg, t, k) <==> !RotatesAt(cfg, t[..n], t[n]) && (k < n ==> NoRotationSince(cfg, t[..n], k))
  {
    hide RotatesAt;
    var n := |t| - 1;
    assert forall j :: 0 <= j < n ==> t[..n][..j] == t[..j] && t[..n][j] == t[j];
    assert t[..n] == t[..n];
  }

  lemma DeliveredNext(cfg: Config, t: seq<Event>)
    requires t != []
    ensures var n := |t| - 1;
      Delivered(cfg, t) <==> !RotatesAt(cfg, t[..n], t[n]) && (Delivered(cfg, t[..n]) || AcceptedPoll(cfg, t[..n], t[n]))
  {
    hide RotatesAt, AcceptedPoll, NoRotationSince;
    var n := |t| - 1;
    var h := t[..n];
    forall k | 0 <= k < |t|
      ensures k < n ==> h[..k] == t[..k] && h[k] == t[k]
      ensures NoRotationSince(cfg, t, k) <==> !RotatesAt(cfg, h, t[n]) && (k < n ==> NoRotationSince(cfg, h, k))
    {
      NoRotationNext(cfg, t, k);
    }
    if Delivered(cfg, h) {
      var k :| 0 <= k < n && AcceptedPoll(cfg, h[..k], h[k]) && NoRotationSince(cfg, h, k);
      assert AcceptedPoll(cfg, t[..k], t[k]);
    }
  }

  /** The job is granted once per lease: never more often than one plus the number of rotations. */
  lemma {:induction false} RunGrants(cfg: Config, t: seq<Event>)
    requires ValidConfig(cfg)
    ensures Run(cfg, t).flags.jobDelivered == Delivered(cfg, t)
    ensures Run(cfg, t).counts.leaseGrants == Count(cfg, GrantAt, t)
    ensures Count(cfg, GrantAt, t) + Tick(!Delivered(cfg, t)) <= 1 + Count(cfg, RotatesAt, t)
    ensures Count(cfg, RotatesAt, t) == Tick(Rotated(cfg, t))
  {
    hide Run, Step, CurrentFence, Rotated, RefusedIn, Delivered;
    if t == [] {
      RunEmpty(cfg);
      NothingYet(cfg);
    } else {
      var n := |t| - 1;
      RunGrants(cfg, t[..n]);
      RunNext(cfg, t);
      RunLease(cfg, t[..n]);
      RotatedNext(cfg, t);
      DeliveredNext(cfg, t);
      StepGrants(cfg, Run(cfg, t[..n]), t[..n], t[n]);
      hide GrantAt, RotatesAt, AcceptedPoll;
    }
  }

  lemma NothingYet(cfg: Config)
    ensures !Delivered(cfg, []) && !Rotated(cfg, [])
  {
  }

  lemma StepGrants(cfg: Config, s: Core, hist: seq<Event>, e: Event)
    requires s.flags.jobDelivered == Delivered(cfg, hist) && s.flags.rotationReady == Rotated(cfg, hist)
    requires s.flags.leaseRejected == RefusedIn(cfg, hist)
    ensures var t := Step(cfg, s, e);
      && t.flags.jobDelivered == (!RotatesAt(cfg, hist, e) && (s.flags.jobDelivered || AcceptedPoll(cfg, hist, e)))
      && t.counts.leaseGrants == s.counts.leaseGrants + Tick(GrantAt(cfg, hist, e))
      && (RotatesAt(cfg, hist, e) ==> !Rotated(cfg, hist))
      && (GrantAt(cfg, hist, e) <==> AcceptedPoll(cfg, hist, e) && !Delivered(cfg, hist))
  {
    hide Rotated, RefusedIn, RouteOf, PollOk, ServeRequest, NoRotationSince;
    if e.Serve? {
      StepServe(cfg, s, e);
    }
  }
}
