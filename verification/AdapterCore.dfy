/** The conformance core as it runs: handlers that update counters, flags and the lease in place. */
module AdapterCore {
  import opened Wrappers
  import opened AdapterProtocol

  class AdapterConformanceCore {
    const cfg: Config
    var fence: Fence
    var counts: Counts
    var late: LatePolls
    var marks: Marks
    var flags: Flags
    var violation: Option<Violation>

    ghost function State(): Core
      reads this
    {
      Core(fence, counts, late, marks, flags, violation)
    }

    constructor (cfg: Config)
      ensures this.cfg == cfg && State() == Initial(cfg)
    {
      this.cfg := cfg;
      fence := Fence(cfg.leaseGeneration, cfg.leaseCapability);
      counts := Counts(0, 0, 0, 0, 0, 0, 0, 0, 0);
      late, marks := LatePolls(0, 0, 0), Marks(0, 0, 0);
      flags := Flags(false, false, false, false, false, false, false, false);
      violation := None;
    }

    method RecordViolation(v: Violation)
      modifies this`violation
      ensures State() == Violate(old(State()), v)
    {
      if violation.None? {
        violation := Some(v);
      }
    }

    method CountArrival(request: Request)
      modifies this
      ensures State() == CountRequest(old(State()), request)
    {
      counts := counts.(requestSequence := counts.requestSequence + 1);
      counts := counts.(totalRequests := counts.totalRequests + 1);
      if flags.completed && Contains(request.path, "/jobs/next") {
        late := late.(afterComplete := late.afterComplete + 1);
      }
      if flags.leaseRejected && !flags.rotationReady && Contains(request.path, "/jobs/next") {
        late := late.(afterLeaseRejection := late.afterLeaseRejection + 1);
      }
      if flags.cancelled && Contains(request.path, "/jobs/next") {
        late := late.(afterCancellation := late.afterCancellation + 1);
      }
    }

    method ServeHTTP(request: Request) returns (reply: Response)
      modifies this
      ensures State() == ServeRequest(cfg, old(State()), request)
      ensures reply == ReplyTo(cfg, CountRequest(old(State()), request), request, RouteOf(cfg, request))
    {
      hide CountRequest, DoHeartbeat, DoNext, Quotes, LeaseReply, HeartbeatOk, PollOk, DoLeaseAction;
      CountArrival(request);
      if request.authorization != "Bearer " + cfg.token {
        HandleProbe(request, StatusNotProbed);
        return Plain(401);
      }
      if cfg.scenario == HttpFailure {
        HandleProbe(request, NotBegunWithStatus);
        return Plain(503);
      }
      if request.verb == "GET" && request.path == "/v2/adapter/status" {
        counts := counts.(statusRequests := counts.statusRequests + 1);
        reply := Plain(200);
      } else if request.verb == "GET" && request.path == "/v2/adapter/profiles" {
        reply := Plain(200);
      } else if request.verb == "POST" && request.path == "/v2/adapter/heartbeat" {
        reply := HandleHeartbeat(request);
      } else if request.verb == "GET" && request.path == "/v2/adapter/jobs/next" {
        reply := HandleNext(request);
      } else if "/v2/adapter/jobs/" + cfg.jobID + "/" <= request.path {
        reply := HandleLeaseAction(request);
      } else {
        RecordViolation(OutsideSurface);
        reply := Plain(404);
      }
    }

    method HandleProbe(request: Request, otherwise: Violation)
      modifies this
      ensures State() == Probe(old(State()), request, otherwise)
    {
      if request.verb == "GET" && request.path == "/v2/adapter/status" {
        counts := counts.(statusRequests := counts.statusRequests + 1);
      } else {
        RecordViolation(otherwise);
      }
    }

    method HandleHeartbeat(request: Request) returns (reply: Response)
      modifies this
      ensures State() == DoHeartbeat(cfg, old(State()), request)
      ensures reply == Plain(if HeartbeatOk(cfg, request) then 200 else 422)
    {
      if request.heartbeat.None? || |request.heartbeat.value.endpoints| != 1
        || !request.heartbeat.value.connected || request.heartbeat.value.active != 1 || request.heartbeat.value.busy < 0
        || request.heartbeat.value.busy > request.heartbeat.value.active
        || request.heartbeat.value.endpoints[0].id != 1 || request.heartbeat.value.endpoints[0].profile != cfg.profile
      {
        RecordViolation(BadHeartbeat);
        return Plain(422);
      }
      counts := counts.(heartbeats := counts.heartbeats + 1);
      if counts.heartbeats > 1 && request.heartbeat.value.endpoints[0].capability == cfg.endpointCapability {
        flags := flags.(echoedEndpointCapability := true);
      }
      reply := Plain(200);
    }

    method HandleNext(request: Request) returns (reply: Response)
      modifies this
      ensures State() == DoNext(cfg, old(State()), request)
      ensures reply == ReplyTo(cfg, old(State()), request, Next)
    {
      if request.profile != cfg.profile || request.endpointID != "1" || request.endpointCapability != cfg.endpointCapability {
        RecordViolation(BadPoll);
        return Plain(403);
      }
      if flags.jobDelivered {
        return Plain(204);
      }
      flags := flags.(jobDelivered := true);
      counts := counts.(leaseGrants := counts.leaseGrants + 1);
      reply := Response(200, Some(fence));
    }

    method HandleLeaseAction(request: Request) returns (reply: Response)
      requires JobPrefix(cfg) <= request.path
      modifies this
      ensures var route := LeaseRoute(request.path[|JobPrefix(cfg)|..]);
              && State() == DoLeaseAction(cfg, old(State()), request, route)
              && reply == ReplyTo(cfg, old(State()), request, route)
    {
      hide DoClaim, DoProgress, DoLease, DoRelease, DoComplete, ClaimOk, ProgressOk, LeaseOk, CompletionOk, Decimal, Violate;
      var expectedGeneration, expectedCapability := Decimal(fence.generation), fence.capability;
      if request.leaseGeneration != expectedGeneration || request.leaseCapability != expectedCapability {
        RecordViolation(BadFence);
        return Plain(409);
      }
      var action := request.path[|JobPrefix(cfg)|..];
      if action == "claim" {
        reply := HandleClaim(request);
      } else if action == "progress" {
        reply := HandleProgress(request);
      } else if action == "lease" {
        reply := HandleLease(request);
      } else if action == "release" {
        reply := HandleRelease(request);
      } else if action == "complete" {
        reply := HandleComplete(request);
      } else {
        RecordViolation(UnknownLeaseAction);
        reply := Plain(404);
      }
    }

    method HandleClaim(request: Request) returns (reply: Response)
      modifies this
      ensures State() == DoClaim(cfg, old(State()), request)
      ensures reply == LeaseReply(cfg, old(State()), request, Claim)
    {
      if request.verb != "POST" || request.claim.None?
        || (request.claim.value != "prepare" && request.claim.value != "mutate" && request.claim.value != "commit")
      {
        RecordViolation(BadClaim);
        return Plain(422);
      }
      counts := counts.(claimRequests := counts.claimRequests + 1);
      if cfg.scenario == LeaseRejected || (cfg.scenario == LeaseRotation && !flags.rotationReady) {
        flags := flags.(leaseRejected := true);
        return Plain(409);
      }
      flags := flags.(claimed := true);
      marks := marks.(claimSequence := counts.requestSequence);
      reply := Plain(200);
    }

    method HandleProgress(request: Request) returns (reply: Response)
      modifies this
      ensures State() == DoProgress(old(State()), request)
      ensures reply == LeaseReply(cfg, old(State()), request, ProgressRoute)
    {
      if request.verb != "POST" || request.progress.None? || request.progress.value.sequence == 0
        || request.progress.value.textBytes > 2000 || request.progress.value.percent < 0 || request.progress.value.percent > 100
      {
        RecordViolation(BadProgress);
        return Plain(422);
      }
      counts := counts.(progressRequests := counts.progressRequests + 1);
      if request.progress.value.sequence <= marks.progressSequence {
        RecordViolation(ProgressNotMonotonic);
      }
      marks := marks.(progressSequence := request.progress.value.sequence);
      reply := Plain(200);
    }

    method HandleLease(request: Request) returns (reply: Response)
      modifies this
      ensures State() == DoLease(cfg, old(State()), request)
      ensures reply == LeaseReply(cfg, old(State()), request, Lease)
    {
      if request.verb != "GET" && request.verb != "POST" {
        RecordViolation(BadLeaseMethod);
        return Plain(405);
      }
      counts := counts.(leaseRequests := counts.leaseRequests + 1);
      var stop := cfg.scenario == Cancellation && counts.leaseRequests >= 2;
      if stop {
        flags := flags.(cancelled := true);
      }
      reply := Plain(if stop then 409 else 200);
    }

    method HandleRelease(request: Request) returns (reply: Response)
      modifies this
      ensures State() == DoRelease(old(State()), request)
      ensures reply == LeaseReply(cfg, old(State()), request, Release)
    {
      if request.verb != "POST" {
        RecordViolation(BadReleaseMethod);
        return Plain(405);
      }
      reply := Plain(if flags.claimed then 409 else 200);
    }

    method HandleComplete(request: Request) returns (reply: Response)
      modifies this
      ensures State() == DoComplete(cfg, old(State()), request)
      ensures reply == LeaseReply(cfg, old(State()), request, Complete)
    {
      if request.verb != "POST" || request.completion.None? {
        RecordViolation(BadCompletion);
        return Plain(422);
      }
      if cfg.scenario == Cancellation {
        counts := counts.(completeRequests := counts.completeRequests + 1);
        marks := marks.(completeSequence := counts.requestSequence);
        flags := flags.(cancelled := true);
        RecordViolation(CompletedAfterCancel);
        return Plain(409);
      }
      var payload := request.completion.value;
      if !payload.encodes {
        RecordViolation(CompletionNotEncodable);
        return Plain(422);
      }
      counts := counts.(completeRequests := counts.completeRequests + 1);
      marks := marks.(completeSequence := counts.requestSequence);
      if !flags.claimed {
        RecordViolation(CompletedUnclaimed);
      }
      if !payload.hasMode {
        RecordViolation(NoOutputMode);
      }
      if payload.hasError {
        RecordViolation(AdapterError);
      } else if !payload.normalizes {
        RecordViolation(NotNormalized);
      }
      flags := flags.(completed := true);
      reply := if cfg.scenario == AmbiguousComplete then Dropped else Plain(200);
    }

    /** Replaces an unclaimed lease; refused unless a claim was rejected and no rotation happened yet. */
    method RotateLease(capability: string) returns (ok: bool)
      modifies this
      ensures ok <==> MayRotate(cfg, old(State()))
      ensures State() == DoRotate(cfg, old(State()), capability)
    {
      if cfg.scenario != LeaseRotation || !flags.leaseRejected || flags.rotationReady {
        return false;
      }
      fence := Fence((fence.generation + 1) % U64, capability);
      flags := flags.(jobDelivered := false);
      flags := flags.(claimed := false);
      marks := marks.(progressSequence := 0);
      flags := flags.(rotationReady := true);
      flags := flags.(leaseRotated := true);
      ok := true;
    }
  }

  /** A core driven through a whole run holds the state the run determines. */
  method Drive(cfg: Config, trace: seq<Event>) returns (core: AdapterConformanceCore)
    ensures fresh(core) && core.cfg == cfg && core.State() == Run(cfg, trace)
  {
    hide ServeRequest, DoRotate;
    core := new AdapterConformanceCore(cfg);
    for k := 0 to |trace|
      invariant fresh(core) && core.cfg == cfg && core.State() == Run(cfg, trace[..k])
    {
      assert trace[..k + 1][..k] == trace[..k];
      match trace[k]
      case Serve(request) => var _ := core.ServeHTTP(request);
      case Rotate(capability) => var _ := core.RotateLease(capability);
      case ProcessFailure => core.RecordViolation(ProcessFailed);
    }
    assert trace[..|trace|] == trace;
  }
}
