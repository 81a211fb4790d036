/** The fake core of the adapter conformance run: its requests, its state and what one event does to it. */
module AdapterProtocol {
  import opened Wrappers

  datatype Scenario = Unauthorized | HttpFailure | LeaseRejected | Lifecycle | Cancellation | LeaseRotation | AmbiguousComplete

  /** What is fixed for one scenario, with the capability and generation of the first lease. */
  datatype Config = Config(scenario: Scenario, token: string, profile: string, jobID: string,
                           endpointCapability: string, leaseCapability: string, leaseGeneration: nat)

  const U64: nat := 0x1_0000_0000_0000_0000

  /** A generation is drawn from 32 random bits plus two. */
  predicate ValidConfig(cfg: Config) {
    2 <= cfg.leaseGeneration < 0x1_0000_0000 + 2
  }

  datatype Endpoint = Endpoint(id: int, profile: string, capability: string)
  datatype Heartbeat = Heartbeat(connected: bool, active: int, busy: int, endpoints: seq<Endpoint>)
  datatype Progress = Progress(sequence: nat, textBytes: nat, percent: int)
  /** A completion document: whether it can be re-encoded, names an output mode, reports an error, and normalizes. */
  datatype Completion = Completion(encodes: bool, hasMode: bool, hasError: bool, normalizes: bool)

  /** A request as the handlers see it; each body view is None when the body does not decode as that document. */
  datatype Request = Request(verb: string, path: string, authorization: string,
                             profile: string, endpointID: string, endpointCapability: string,
                             leaseGeneration: string, leaseCapability: string,
                             heartbeat: Option<Heartbeat>, claim: Option<string>,
                             progress: Option<Progress>, completion: Option<Completion>)

  datatype Violation =
    | StatusNotProbed | NotBegunWithStatus | OutsideSurface
    | BadHeartbeat | BadPoll | BadFence | BadClaim | BadProgress | ProgressNotMonotonic
    | BadLeaseMethod | BadReleaseMethod | UnknownLeaseAction
    | BadCompletion | CompletedAfterCancel | CompletionNotEncodable
    | CompletedUnclaimed | NoOutputMode | AdapterError | NotNormalized
    | ProcessFailed

  /** The lease a client must quote. */
  datatype Fence = Fence(generation: nat, capability: string)

  datatype Counts = Counts(requestSequence: nat, totalRequests: nat, statusRequests: nat, heartbeats: nat,
                           claimRequests: nat, progressRequests: nat, leaseRequests: nat, leaseGrants: nat,
                           completeRequests: nat)

  /** Polls that came after the client should have stopped. */
  datatype LatePolls = LatePolls(afterComplete: nat, afterLeaseRejection: nat, afterCancellation: nat)

  datatype Marks = Marks(claimSequence: nat, completeSequence: nat, progressSequence: nat)

  datatype Flags = Flags(jobDelivered: bool, claimed: bool, completed: bool, cancelled: bool, leaseRejected: bool,
                         leaseRotated: bool, rotationReady: bool, echoedEndpointCapability: bool)

  datatype Core = Core(fence: Fence, counts: Counts, late: LatePolls, marks: Marks, flags: Flags,
                       violation: Option<Violation>)

  /** One request served, a lease rotation by the driver, or a failure of the adapter process. */
  datatype Event = Serve(request: Request) | Rotate(capability: string) | ProcessFailure

  function Initial(cfg: Config): (s: Core) {
    Core(Fence(cfg.leaseGeneration, cfg.leaseCapability), Counts(0, 0, 0, 0, 0, 0, 0, 0, 0), LatePolls(0, 0, 0),
         Marks(0, 0, 0), Flags(false, false, false, false, false, false, false, false), None)
  }

  // ----- Which handler a request reaches -----

  datatype Route = NoCredential | Down | Status | Profiles | HeartbeatRoute | Next
                 | Claim | ProgressRoute | Lease | Release | Complete | UnknownAction | Elsewhere

  function Contains(s: string, part: string): (b: bool)
    ensures b <==> exists i :: 0 <= i <= |s| && part <= s[i..]
  {
    if part <= s then assert s[0..] == s; true
    else if s == [] then false
    else
      assert forall i :: 1 <= i <= |s| ==> s[i..] == s[1..][i - 1..];
      Contains(s[1..], part)
  }

  predicate IsPoll(r: Request) {
    Contains(r.path, "/jobs/next")
  }

  predicate IsStatusProbe(r: Request) {
    r.verb == "GET" && r.path == "/v2/adapter/status"
  }

  function JobPrefix(cfg: Config): string {
    "/v2/adapter/jobs/" + cfg.jobID + "/"
  }

  function LeaseRoute(action: string): (route: Route) {
    if action == "claim" then Claim
    else if action == "progress" then ProgressRoute
    else if action == "lease" then Lease
    else if action == "release" then Release
    else if action == "complete" then Complete
    else UnknownAction
  }

  function RouteOf(cfg: Config, r: Request): (route: Route) {
    if r.authorization != "Bearer " + cfg.token then NoCredential
    else if cfg.scenario == HttpFailure then Down
    else if IsStatusProbe(r) then Status
    else if r.verb == "GET" && r.path == "/v2/adapter/profiles" then Profiles
    else if r.verb == "POST" && r.path == "/v2/adapter/heartbeat" then HeartbeatRoute
    else if r.verb == "GET" && r.path == "/v2/adapter/jobs/next" then Next
    else if JobPrefix(cfg) <= r.path then LeaseRoute(r.path[|JobPrefix(cfg)|..])
    else Elsewhere
  }

  predicate IsLeaseRoute(route: Route) {
    route.Claim? || route.ProgressRoute? || route.Lease? || route.Release? || route.Complete? || route.UnknownAction?
  }

  // ----- What makes a request well-formed -----

  predicate HeartbeatOk(cfg: Config, r: Request) {
    r.heartbeat.Some? &&
    var h := r.heartbeat.value;
    && |h.endpoints| == 1 && h.connected && h.active == 1 && 0 <= h.busy <= h.active
    && h.endpoints[0].id == 1 && h.endpoints[0].profile == cfg.profile
  }

  predicate PollOk(cfg: Config, r: Request) {
    r.profile == cfg.profile && r.endpointID == "1" && r.endpointCapability == cfg.endpointCapability
  }

  predicate ClaimOk(r: Request) {
    r.verb == "POST" && r.claim.Some? && r.claim.value in ["prepare", "mutate", "commit"]
  }

  predicate ProgressOk(r: Request) {
    r.verb == "POST" && r.progress.Some? &&
    var p := r.progress.value; p.sequence != 0 && p.textBytes <= 2000 && 0 <= p.percent <= 100
  }

  predicate LeaseOk(r: Request) {
    r.verb == "GET" || r.verb == "POST"
  }

  predicate CompletionOk(r: Request) {
    r.verb == "POST" && r.completion.Some?
  }

  /** The decimal digits of a generation, as a header carries them. */
  function Decimal(n: nat): (s: string) {
    if n < 10 then [Digit(n)] else Decimal(n / 10) + [Digit(n % 10)]
  }

  function Digit(d: nat): (c: char)
    requires d < 10
  {
    "0123456789"[d]
  }

  predicate Quotes(r: Request, fence: Fence) {
    r.leaseGeneration == Decimal(fence.generation) && r.leaseCapability == fence.capability
  }

  // ----- The effect of one event -----

  function Violate(s: Core, v: Violation): (t: Core) {
    if s.violation.None? then s.(violation := Some(v)) else s
  }

  function CountRequest(s: Core, r: Request): (t: Core) {
    s.(counts := s.counts.(requestSequence := s.counts.requestSequence + 1, totalRequests := s.counts.totalRequests + 1),
       late := LatePolls(
         s.late.afterComplete + (if s.flags.completed && IsPoll(r) then 1 else 0),
         s.late.afterLeaseRejection + (if s.flags.leaseRejected && !s.flags.rotationReady && IsPoll(r) then 1 else 0),
         s.late.afterCancellation + (if s.flags.cancelled && IsPoll(r) then 1 else 0)))
  }

  function CountStatus(s: Core): (t: Core) {
    s.(counts := s.counts.(statusRequests := s.counts.statusRequests + 1))
  }

  function Probe(s: Core, r: Request, otherwise: Violation): (t: Core) {
    if IsStatusProbe(r) then CountStatus(s) else Violate(s, otherwise)
  }

  function DoHeartbeat(cfg: Config, s: Core, r: Request): (t: Core) {
    if !HeartbeatOk(cfg, r) then Violate(s, BadHeartbeat)
    else
      var echoed := s.counts.heartbeats + 1 > 1 && r.heartbeat.value.endpoints[0].capability == cfg.endpointCapability;
      s.(counts := s.counts.(heartbeats := s.counts.heartbeats + 1),
         flags := s.flags.(echoedEndpointCapability := s.flags.echoedEndpointCapability || echoed))
  }

  function DoNext(cfg: Config, s: Core, r: Request): (t: Core) {
    if !PollOk(cfg, r) then Violate(s, BadPoll)
    else if s.flags.jobDelivered then s
    else s.(flags := s.flags.(jobDelivered := true), counts := s.counts.(leaseGrants := s.counts.leaseGrants + 1))
  }

  predicate Refuses(cfg: Config, rotationReady: bool) {
    cfg.scenario == LeaseRejected || (cfg.scenario == LeaseRotation && !rotationReady)
  }

  function DoClaim(cfg: Config, s: Core, r: Request): (t: Core) {
    if !ClaimOk(r) then Violate(s, BadClaim)
    else
      var s := s.(counts := s.counts.(claimRequests := s.counts.claimRequests + 1));
      if Refuses(cfg, s.flags.rotationReady) then s.(flags := s.flags.(leaseRejected := true))
      else s.(flags := s.flags.(claimed := true), marks := s.marks.(claimSequence := s.counts.requestSequence))
  }

  function DoProgress(s: Core, r: Request): (t: Core) {
    if !ProgressOk(r) then Violate(s, BadProgress)
    else
      var s := s.(counts := s.counts.(progressRequests := s.counts.progressRequests + 1));
      var s := if r.progress.value.sequence <= s.marks.progressSequence then Violate(s, ProgressNotMonotonic) else s;
      s.(marks := s.marks.(progressSequence := r.progress.value.sequence))
  }

  function DoLease(cfg: Config, s: Core, r: Request): (t: Core) {
    if !LeaseOk(r) then Violate(s, BadLeaseMethod)
    else
      var s := s.(counts := s.counts.(leaseRequests := s.counts.leaseRequests + 1));
      s.(flags := s.flags.(cancelled := s.flags.cancelled || (cfg.scenario == Cancellation && s.counts.leaseRequests >= 2)))
  }

  function DoRelease(s: Core, r: Request): (t: Core) {
    if r.verb != "POST" then Violate(s, BadReleaseMethod) else s
  }

  /** The first fault a completion document shows, if any. */
  function CompletionFault(claimed: bool, c: Completion): (v: Option<Violation>) {
    if !claimed then Some(CompletedUnclaimed)
    else if !c.hasMode then Some(NoOutputMode)
    else if c.hasError then Some(AdapterError)
    else if !c.normalizes then Some(NotNormalized)
    else None
  }

  function CountCompletion(s: Core): (t: Core) {
    s.(counts := s.counts.(completeRequests := s.counts.completeRequests + 1),
       marks := s.marks.(completeSequence := s.counts.requestSequence))
  }

  function DoComplete(cfg: Config, s: Core, r: Request): (t: Core) {
    if !CompletionOk(r) then Violate(s, BadCompletion)
    else if cfg.scenario == Cancellation then
      Violate(CountCompletion(s).(flags := s.flags.(cancelled := true)), CompletedAfterCancel)
    else if !r.completion.value.encodes then Violate(s, CompletionNotEncodable)
    else
      var fault := CompletionFault(s.flags.claimed, r.completion.value);
      var s := CountCompletion(s).(flags := s.flags.(completed := true));
      if fault.Some? then Violate(s, fault.value) else s
  }

  function DoLeaseAction(cfg: Config, s: Core, r: Request, route: Route): (t: Core)
    requires IsLeaseRoute(route)
  {
    if !Quotes(r, s.fence) then Violate(s, BadFence)
    else match route
      case Claim => DoClaim(cfg, s, r)
      case ProgressRoute => DoProgress(s, r)
      case Lease => DoLease(cfg, s, r)
      case Release => DoRelease(s, r)
      case Complete => DoComplete(cfg, s, r)
      case UnknownAction => Violate(s, UnknownLeaseAction)
  }

  function Dispatch(cfg: Config, s: Core, r: Request, route: Route): (t: Core) {
    match route
    case NoCredential => Probe(s, r, StatusNotProbed)
    case Down => Probe(s, r, NotBegunWithStatus)
    case Status => CountStatus(s)
    case Profiles => s
    case HeartbeatRoute => DoHeartbeat(cfg, s, r)
    case Next => DoNext(cfg, s, r)
    case Elsewhere => Violate(s, OutsideSurface)
    case _ => DoLeaseAction(cfg, s, r, route)
  }

  function ServeRequest(cfg: Config, s: Core, r: Request): (t: Core) {
    Dispatch(cfg, CountRequest(s, r), r, RouteOf(cfg, r))
  }

  /** What the client is told: a status, with the lease when a job is delivered; or a dropped connection. */
  datatype Response = Response(status: nat, lease: Option<Fence>) | Dropped

  function Plain(status: nat): Response {
    Response(status, None)
  }

  function ReplyTo(cfg: Config, s: Core, r: Request, route: Route): (reply: Response) {
    match route
    case NoCredential => Plain(401)
    case Down => Plain(503)
    case Status => Plain(200)
    case Profiles => Plain(200)
    case HeartbeatRoute => Plain(if HeartbeatOk(cfg, r) then 200 else 422)
    case Next =>
      if !PollOk(cfg, r) then Plain(403)
      else if s.flags.jobDelivered then Plain(204)
      else Response(200, Some(s.fence))
    case Elsewhere => Plain(404)
    case _ =>
      if !Quotes(r, s.fence) then Plain(409) else LeaseReply(cfg, s, r, route)
  }

  function LeaseReply(cfg: Config, s: Core, r: Request, route: Route): (reply: Response) {
    match route
    case Claim => Plain(if !ClaimOk(r) then 422 else if Refuses(cfg, s.flags.rotationReady) then 409 else 200)
    case ProgressRoute => Plain(if ProgressOk(r) then 200 else 422)
    case Lease =>
      Plain(if !LeaseOk(r) then 405 else if cfg.scenario == Cancellation && s.counts.leaseRequests + 1 >= 2 then 409 else 200)
    case Release => Plain(if r.verb != "POST" then 405 else if s.flags.claimed then 409 else 200)
    case Complete =>
      if !CompletionOk(r) then Plain(422)
      else if cfg.scenario == Cancellation then Plain(409)
      else if !r.completion.value.encodes then Plain(422)
      else if cfg.scenario == AmbiguousComplete then Dropped
      else Plain(200)
    case _ => Plain(404)
  }

  predicate MayRotate(cfg: Config, s: Core) {
    cfg.scenario == LeaseRotation && s.flags.leaseRejected && !s.flags.rotationReady
  }

  function DoRotate(cfg: Config, s: Core, capability: string): (t: Core) {
    if !MayRotate(cfg, s) then s
    else s.(fence := Fence((s.fence.generation + 1) % U64, capability), marks := s.marks.(progressSequence := 0),
            flags := s.flags.(jobDelivered := false, claimed := false, rotationReady := true, leaseRotated := true))
  }

  function Step(cfg: Config, s: Core, e: Event): (t: Core) {
    match e
    case Serve(r) => ServeRequest(cfg, s, r)
    case Rotate(capability) => DoRotate(cfg, s, capability)
    case ProcessFailure => Violate(s, ProcessFailed)
  }

  /** The state after a whole run. */
  function Run(cfg: Config, trace: seq<Event>): (s: Core) {
    if trace == [] then Initial(cfg) else Step(cfg, Run(cfg, trace[..|trace| - 1]), trace[|trace| - 1])
  }

  // ----- Distinct generations have distinct headers -----

  function Parse(s: string): (n: nat) {
    if s == [] then 0
    else 10 * Parse(s[..|s| - 1]) + (if '0' <= s[|s| - 1] <= '9' then (s[|s| - 1] - '0') as nat else 0)
  }

  lemma {:induction false} ParseDecimal(n: nat)
    ensures Parse(Decimal(n)) == n
  {
    var s := Decimal(n);
    assert s[|s| - 1] == Digit(n % 10) && (s[|s| - 1] - '0') as nat == n % 10;
    if n < 10 {
      assert s[..|s| - 1] == [];
    } else {
      ParseDecimal(n / 10);
      assert s[..|s| - 1] == Decimal(n / 10);
    }
  }

  lemma DecimalInjective(m: nat, n: nat)
    ensures Decimal(m) == Decimal(n) ==> m == n
  {
    ParseDecimal(m);
    ParseDecimal(n);
  }
}
