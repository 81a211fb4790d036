/** What the conformance core tells the adapter, over a whole run. */
module AdapterReplies {
  import opened Wrappers
  import opened AdapterProtocol
  import opened AdapterTrace
  import opened AdapterVerdicts
  import opened AdapterEvidence

  /** The reply to a request that arrives after `hist`. */
  ghost function ReplyAfter(cfg: Config, hist: seq<Event>, r: Request): Response {
    ReplyTo(cfg, CountRequest(Run(cfg, hist), r), r, RouteOf(cfg, r))
  }

  ghost predicate HandsOver(reply: Response) {
    reply.Response? && reply.lease.Some?
  }

  lemma ReplySame(cfg: Config, s: Core, r: Request, route: Route)
    ensures ReplyTo(cfg, CountRequest(s, r), r, route) == ReplyTo(cfg, s, r, route)
  {
    hide PollOk, Quotes, HeartbeatOk, ClaimOk, ProgressOk, LeaseOk, CompletionOk;
    CountKeeps(s, r);
    hide CountRequest;
  }

  lemma PollReplies(cfg: Config, s: Core, r: Request)
    ensures var reply := ReplyTo(cfg, s, r, RouteOf(cfg, r));
      && (HandsOver(reply) <==> RouteOf(cfg, r) == Next && PollOk(cfg, r) && !s.flags.jobDelivered)
      && (HandsOver(reply) ==> reply == Response(200, Some(s.fence)))
  {
    hide RouteOf, PollOk, Quotes, HeartbeatOk, ClaimOk, ProgressOk, LeaseOk, CompletionOk, Refuses;
  }

  /** A reply carries a lease exactly when it grants the job, and then it is the lease in force. */
  lemma GrantReply(cfg: Config, hist: seq<Event>, r: Request)
    requires ValidConfig(cfg)
    ensures HandsOver(ReplyAfter(cfg, hist, r)) <==> GrantAt(cfg, hist, Serve(r))
    ensures HandsOver(ReplyAfter(cfg, hist, r)) ==> ReplyAfter(cfg, hist, r) == Response(200, Some(CurrentFence(cfg, hist)))
  {
    hide Run, CurrentFence, PollOk, RouteOf, Rotated, RefusedIn, Delivered, HandsOver, ReplyTo, AcceptedPoll, CountRequest;
    var s := Run(cfg, hist);
    ReplySame(cfg, s, r, RouteOf(cfg, r));
    PollReplies(cfg, s, r);
    RunGrants(cfg, hist);
    RunLease(cfg, hist);
    GrantIsFirst(cfg, hist, r);
  }

  lemma GrantIsFirst(cfg: Config, hist: seq<Event>, r: Request)
    ensures GrantAt(cfg, hist, Serve(r)) <==> RouteOf(cfg, r) == Next && PollOk(cfg, r) && !Delivered(cfg, hist)
  {
    hide PollOk, RouteOf, NoRotationSince;
  }

  /** A claim is answered 409 when it is refused and 200 when it is accepted. */
  lemma ClaimReply(cfg: Config, hist: seq<Event>, r: Request)
    requires ValidConfig(cfg) && ClaimAt(cfg, hist, Serve(r))
    ensures ReplyAfter(cfg, hist, r) == Plain(if RefusedClaim(cfg, hist, Serve(r)) then 409 else 200)
    ensures RefusedClaim(cfg, hist, Serve(r)) <==> !AcceptedClaim(cfg, hist, Serve(r))
  {
    hide Run, CurrentFence, RouteOf, Rotated, RefusedIn, CountRequest, ClaimOk, Quotes;
    ReplySame(cfg, Run(cfg, hist), r, RouteOf(cfg, r));
    RunLease(cfg, hist);
  }

  /** A lease check is answered 409 exactly when it leaves the job cancelled. */
  lemma LeaseReplies(cfg: Config, hist: seq<Event>, r: Request)
    requires ValidConfig(cfg) && LeaseCheckAt(cfg, hist, Serve(r))
    ensures ReplyAfter(cfg, hist, r) ==
      Plain(if cfg.scenario == Cancellation && Count(cfg, LeaseCheckAt, hist + [Serve(r)]) >= 2 then 409 else 200)
  {
    hide Run, CurrentFence, RouteOf, Rotated, RefusedIn, CountRequest, LeaseOk, Quotes;
    ReplySame(cfg, Run(cfg, hist), r, RouteOf(cfg, r));
    RunLease(cfg, hist);
    RunCounts(cfg, hist);
    assert (hist + [Serve(r)])[..|hist|] == hist;
  }

  /** A well-formed release is answered 409 exactly when a claim was accepted before. */
  lemma ReleaseReply(cfg: Config, hist: seq<Event>, r: Request)
    requires ValidConfig(cfg) && Reaches(cfg, Serve(r), Release) && Quotes(r, CurrentFence(cfg, hist)) && r.verb == "POST"
    ensures ReplyAfter(cfg, hist, r) == Plain(if Ever(cfg, AcceptedClaim, hist) then 409 else 200)
  {
    hide Run, CurrentFence, RouteOf, Rotated, RefusedIn, CountRequest, Quotes, Ever;
    ReplySame(cfg, Run(cfg, hist), r, RouteOf(cfg, r));
    RunLease(cfg, hist);
    RunClaims(cfg, hist);
  }

  /** A lease stays the one in force until a rotation. */
  lemma {:induction false} FenceStays(cfg: Config, t: seq<Event>, k: nat)
    requires k <= |t| && NoRotationSince(cfg, t, k)
    ensures CurrentFence(cfg, t) == CurrentFence(cfg, t[..k])
    decreases |t|
  {
    hide RotatesAt;
    if k == |t| {
      assert t[..k] == t;
    } else {
      var n := |t| - 1;
      assert t[..n][..k] == t[..k];
      assert forall j :: 0 <= j < n ==> t[..n][..j] == t[..j] && t[..n][j] == t[j];
      FenceStays(cfg, t[..n], k);
    }
  }

  /**
   * The adapter that keeps to the lease it was handed passes the fence until the rotation; afterwards the generation in
   * force is another one and the old lease is turned away, whatever capability it is sent with.
   */
  lemma GrantedLeaseFences(cfg: Config, t: seq<Event>, k: nat, r: Request, lease: Fence)
    requires ValidConfig(cfg) && k < |t| && t[k].Serve?
    requires ReplyAfter(cfg, t[..k], t[k].request) == Response(200, Some(lease))
    requires r.leaseGeneration == Decimal(lease.generation)
    ensures Quotes(r, CurrentFence(cfg, t)) <==> NoRotationSince(cfg, t, k) && r.leaseCapability == lease.capability
  {
    hide Run, CurrentFence, RouteOf, Rotated, NoRotationSince, ReplyAfter, GrantAt, Decimal;
    GrantReply(cfg, t[..k], t[k].request);
    if NoRotationSince(cfg, t, k) {
      FenceStays(cfg, t, k);
    } else {
      RotationSince(cfg, t, k);
      FenceOf(cfg, t, k);
      RunLease(cfg, t);
      DecimalInjective(lease.generation, lease.generation + 1);
    }
  }

  lemma RotationSince(cfg: Config, t: seq<Event>, k: nat)
    requires k <= |t| && !NoRotationSince(cfg, t, k)
    ensures Rotated(cfg, t) && !Rotated(cfg, t[..k])
  {
    hide RefusedIn;
    var j :| k <= j < |t| && RotatesAt(cfg, t[..j], t[j]);
    if Rotated(cfg, t[..k]) {
      assert t[..j][..k] == t[..k];
      RotatedLater(cfg, t[..j], k);
    }
  }
}
