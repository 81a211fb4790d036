/** A well-behaved adapter passes every check, whatever the configuration. */
module AdapterWitness {
  import opened Wrappers
  import opened AdapterProtocol
  import opened AdapterTrace
  import opened AdapterVerdicts
  import opened AdapterEvidence

  // ----- Its requests -----

  function Plain(cfg: Config, verb: string, path: string): (r: Request) {
    Request(verb, path, "Bearer " + cfg.token, cfg.profile, "1", cfg.endpointCapability, "", "", None, None, None, None)
  }

  function StatusRequest(cfg: Config, authorization: string): (r: Request) {
    Plain(cfg, "GET", "/v2/adapter/status").(authorization := authorization)
  }

  function BeatRequest(cfg: Config): (r: Request) {
    var endpoint := Endpoint(1, cfg.profile, cfg.endpointCapability);
    Plain(cfg, "POST", "/v2/adapter/heartbeat").(heartbeat := Some(Heartbeat(true, 1, 0, [endpoint])))
  }

  function PollRequest(cfg: Config): (r: Request) {
    Plain(cfg, "GET", "/v2/adapter/jobs/next")
  }

  function LeaseRequest(cfg: Config, fence: Fence, action: string): (r: Request) {
    Plain(cfg, "POST", JobPrefix(cfg) + action).(
      leaseGeneration := Decimal(fence.generation), leaseCapability := fence.capability,
      claim := Some("commit"), completion := Some(Completion(true, true, false, true)))
  }

  lemma PlainRoutes(cfg: Config)
    requires cfg.scenario != HttpFailure
    ensures RouteOf(cfg, BeatRequest(cfg)) == HeartbeatRoute && RouteOf(cfg, PollRequest(cfg)) == Next
  {
  }

  lemma LeaseRoutes(cfg: Config, fence: Fence, action: string)
    requires cfg.scenario != HttpFailure
    ensures RouteOf(cfg, LeaseRequest(cfg, fence, action)) == LeaseRoute(action)
    ensures Quotes(LeaseRequest(cfg, fence, action), fence)
  {
    var r := LeaseRequest(cfg, fence, action);
    assert r.path[12] == 'j' && "/v2/adapter/heartbeat"[12] == 'h';
    assert r.path[|JobPrefix(cfg)|..] == action;
  }

  // ----- What they do -----

  /** Nothing has happened yet after which a poll would be too late. */
  predicate Quiet(s: Core) {
    !s.flags.completed && !s.flags.cancelled && (s.flags.leaseRejected ==> s.flags.rotationReady)
  }

  function Arrived(s: Core): (t: Core) {
    s.(counts := s.counts.(requestSequence := s.counts.requestSequence + 1, totalRequests := s.counts.totalRequests + 1))
  }

  lemma QuietCount(s: Core, r: Request)
    requires Quiet(s)
    ensures CountRequest(s, r) == Arrived(s)
  {
    hide IsPoll;
  }

  lemma BeatStep(cfg: Config, s: Core)
    requires cfg.scenario != HttpFailure && Quiet(s)
    ensures Step(cfg, s, Serve(BeatRequest(cfg))) == DoHeartbeat(cfg, Arrived(s), BeatRequest(cfg))
    ensures HeartbeatOk(cfg, BeatRequest(cfg))
  {
    hide RouteOf, CountRequest;
    QuietCount(s, BeatRequest(cfg));
    PlainRoutes(cfg);
  }

  lemma PollStep(cfg: Config, s: Core)
    requires cfg.scenario != HttpFailure && Quiet(s)
    ensures Step(cfg, s, Serve(PollRequest(cfg))) == DoNext(cfg, Arrived(s), PollRequest(cfg))
    ensures PollOk(cfg, PollRequest(cfg))
  {
    hide RouteOf, CountRequest;
    QuietCount(s, PollRequest(cfg));
    PlainRoutes(cfg);
  }

  lemma ClaimStep(cfg: Config, s: Core)
    requires cfg.scenario != HttpFailure && Quiet(s)
    ensures var r := LeaseRequest(cfg, s.fence, "claim");
      Step(cfg, s, Serve(r)) == DoClaim(cfg, Arrived(s), r) && ClaimOk(r)
  {
    hide RouteOf, CountRequest, Quotes, JobPrefix, Decimal;
    QuietCount(s, LeaseRequest(cfg, s.fence, "claim"));
    LeaseRoutes(cfg, s.fence, "claim");
  }

  lemma LeaseStep(cfg: Config, s: Core)
    requires cfg.scenario != HttpFailure && Quiet(s)
    ensures var r := LeaseRequest(cfg, s.fence, "lease");
      Step(cfg, s, Serve(r)) == DoLease(cfg, Arrived(s), r) && LeaseOk(r)
  {
    hide RouteOf, CountRequest, Quotes, JobPrefix, Decimal;
    QuietCount(s, LeaseRequest(cfg, s.fence, "lease"));
    LeaseRoutes(cfg, s.fence, "lease");
  }

  lemma CompleteStep(cfg: Config, s: Core)
    requires cfg.scenario != HttpFailure && Quiet(s)
    ensures var r := LeaseRequest(cfg, s.fence, "complete");
      Step(cfg, s, Serve(r)) == DoComplete(cfg, Arrived(s), r) && CompletionOk(r)
  {
    hide RouteOf, CountRequest, Quotes, JobPrefix, Decimal;
    QuietCount(s, LeaseRequest(cfg, s.fence, "complete"));
    LeaseRoutes(cfg, s.fence, "complete");
  }

  lemma RunMore(cfg: Config, t: seq<Event>, e: Event)
    ensures Run(cfg, t + [e]) == Step(cfg, Run(cfg, t), e)
  {
    assert (t + [e])[..|t|] == t;
  }

  // ----- Its runs -----

  function Beat(cfg: Config): (e: Event) { Serve(BeatRequest(cfg)) }
  function Poll(cfg: Config): (e: Event) { Serve(PollRequest(cfg)) }
  function Act(cfg: Config, fence: Fence, action: string): (e: Event) { Serve(LeaseRequest(cfg, fence, action)) }

  function First(cfg: Config): (fence: Fence) {
    Fence(cfg.leaseGeneration, cfg.leaseCapability)
  }

  /** Heartbeat, poll and claim. */
  function Opening(cfg: Config): (t: seq<Event>) {
    [] + [Beat(cfg)] + [Poll(cfg)] + [Act(cfg, First(cfg), "claim")]
  }

  /** What the opening leaves behind, where claims are accepted and where they are refused. */
  function Opened(cfg: Config): (s: Core) {
    var refused := Refuses(cfg, false);
    Core(First(cfg), Counts(3, 3, 0, 1, 1, 0, 0, 1, 0), LatePolls(0, 0, 0), Marks(if refused then 0 else 3, 0, 0),
         Flags(true, !refused, false, false, refused, false, false, false), None)
  }

  lemma OpeningRuns(cfg: Config)
    requires cfg.scenario != HttpFailure
    ensures Run(cfg, Opening(cfg)) == Opened(cfg)
  {
    hide Run, Step, BeatRequest, PollRequest, LeaseRequest, PollOk, ClaimOk, Refuses;
    var t1 := [] + [Beat(cfg)];
    var t2 := t1 + [Poll(cfg)];
    RunEmpty(cfg);
    RunMore(cfg, [], Beat(cfg));
    BeatStep(cfg, Initial(cfg));
    RunMore(cfg, t1, Poll(cfg));
    PollStep(cfg, Run(cfg, t1));
    RunMore(cfg, t2, Act(cfg, First(cfg), "claim"));
    ClaimStep(cfg, Run(cfg, t2));
  }

  /** Finishing the work passes the lifecycle checks and the ambiguous-completion check. */
  lemma WorkPasses(cfg: Config)
    requires cfg.scenario == Lifecycle || cfg.scenario == AmbiguousComplete
    ensures var s := Run(cfg, Opening(cfg) + [Beat(cfg)] + [Act(cfg, First(cfg), "complete")]);
      LifecycleVerdict(s) && AmbiguousVerdict(s)
  {
    hide Run, Step, Opening;
    var t1 := Opening(cfg) + [Beat(cfg)];
    OpeningRuns(cfg);
    RunMore(cfg, Opening(cfg), Beat(cfg));
    BeatStep(cfg, Opened(cfg));
    RunMore(cfg, t1, Act(cfg, First(cfg), "complete"));
    CompleteStep(cfg, Run(cfg, t1));
  }

  /** Stopping after a refused claim passes the expired-lease check. */
  lemma RefusedPasses(cfg: Config)
    requires cfg.scenario == LeaseRejected
    ensures ExpiredLeaseVerdict(Run(cfg, Opening(cfg)))
  {
    hide Run, Opening;
    OpeningRuns(cfg);
  }

  /** Checking the lease twice and then stopping passes the cancellation check. */
  lemma CancelledPasses(cfg: Config)
    requires cfg.scenario == Cancellation
    ensures CancellationVerdict(
      Run(cfg, Opening(cfg) + [Act(cfg, First(cfg), "lease")] + [Act(cfg, First(cfg), "lease")]))
  {
    hide Run, Step, Opening, LeaseRequest, LeaseOk;
    var check := Act(cfg, First(cfg), "lease");
    var t1 := Opening(cfg) + [check];
    OpeningRuns(cfg);
    RunMore(cfg, Opening(cfg), check);
    LeaseStep(cfg, Opened(cfg));
    RunMore(cfg, t1, check);
    LeaseStep(cfg, Run(cfg, t1));
  }

  /** The rotation, a poll and a claim under the new lease. */
  function Reopening(cfg: Config, capability: string): (t: seq<Event>) {
    Opening(cfg) + [Rotate(capability)] + [Poll(cfg)] + [Act(cfg, Second(cfg, capability), "claim")]
  }

  function Second(cfg: Config, capability: string): (fence: Fence) {
    Fence(cfg.leaseGeneration + 1, capability)
  }

  function Reopened(cfg: Config, capability: string): (s: Core) {
    Core(Second(cfg, capability), Counts(5, 5, 0, 1, 2, 0, 0, 2, 0), LatePolls(0, 0, 0), Marks(5, 0, 0),
         Flags(true, true, false, false, true, true, true, false), None)
  }

  lemma ReopeningRuns(cfg: Config, capability: string)
    requires ValidConfig(cfg) && cfg.scenario == LeaseRotation
    ensures Run(cfg, Reopening(cfg, capability)) == Reopened(cfg, capability)
  {
    hide Run, Step, Opening, BeatRequest, PollRequest, LeaseRequest, PollOk, ClaimOk;
    var t1 := Opening(cfg) + [Rotate(capability)];
    var t2 := t1 + [Poll(cfg)];
    OpeningRuns(cfg);
    RunMore(cfg, Opening(cfg), Rotate(capability));
    RotateStep(cfg, Opened(cfg), capability);
    RunMore(cfg, t1, Poll(cfg));
    PollStep(cfg, Run(cfg, t1));
    RunMore(cfg, t2, Act(cfg, Second(cfg, capability), "claim"));
    ClaimStep(cfg, Run(cfg, t2));
  }

  /** Starting again under the rotated lease passes the rotation check. */
  lemma RotatedPasses(cfg: Config, capability: string)
    requires ValidConfig(cfg) && cfg.scenario == LeaseRotation
    ensures RotationVerdict(Run(cfg, Reopening(cfg, capability) + [Act(cfg, Second(cfg, capability), "complete")]))
  {
    hide Run, Step, Reopening;
    ReopeningRuns(cfg, capability);
    RunMore(cfg, Reopening(cfg, capability), Act(cfg, Second(cfg, capability), "complete"));
    CompleteStep(cfg, Reopened(cfg, capability));
  }

  lemma RotateStep(cfg: Config, s: Core, capability: string)
    ensures Step(cfg, s, Rotate(capability)) == DoRotate(cfg, s, capability)
  {
  }

  /** Probing once and giving up passes both no-retry checks, with whatever credential the probe was sent. */
  lemma ProbePasses(cfg: Config, authorization: string)
    ensures OneProbeVerdict(Run(cfg, [] + [Serve(StatusRequest(cfg, authorization))]))
  {
    hide Run;
    RunEmpty(cfg);
    RunMore(cfg, [], Serve(StatusRequest(cfg, authorization)));
    var r := StatusRequest(cfg, authorization);
    QuietCount(Initial(cfg), r);
    assert IsStatusProbe(r);
    hide CountRequest;
  }
}
