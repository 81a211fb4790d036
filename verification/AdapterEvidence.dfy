/** The remaining evidence of a conformance run: requests, probes, heartbeats, cancellation, and claim before completion. */
module AdapterEvidence {
  import opened Wrappers
  import opened AdapterProtocol
  import opened AdapterTrace
  import opened AdapterVerdicts

  // ----- Requests, probes and heartbeats -----

  /** Status probes are counted whether or not they carry the credential. */
  lemma StatusRoute(cfg: Config, r: Request)
    ensures IsStatusProbe(r) <==> EffectOf(cfg, Fence(0, ""), r, RouteOf(cfg, r)).status
  {
  }

  lemma StatusIgnoresFence(cfg: Config, a: Fence, b: Fence, r: Request, route: Route)
    ensures EffectOf(cfg, a, r, route).status == EffectOf(cfg, b, r, route).status
  {
  }

  lemma StepArrivals(cfg: Config, s: Core, hist: seq<Event>, e: Event)
    ensures var t := Step(cfg, s, e);
      && t.counts.requestSequence == s.counts.requestSequence + Tick(RequestAt(cfg, hist, e))
      && t.counts.totalRequests == s.counts.totalRequests + Tick(RequestAt(cfg, hist, e))
      && t.counts.statusRequests == s.counts.statusRequests + Tick(StatusAt(cfg, hist, e))
      && t.counts.heartbeats == s.counts.heartbeats + Tick(HeartbeatAt(cfg, hist, e))
  {
    if e.Serve? {
      StatusRoute(cfg, e.request);
      StatusIgnoresFence(cfg, s.fence, Fence(0, ""), e.request, RouteOf(cfg, e.request));
      ServeArrivals(cfg, s, hist, e);
    }
    hide RouteOf, HeartbeatOk, IsStatusProbe, ServeRequest, EffectOf;
  }

  lemma ServeArrivals(cfg: Config, s: Core, hist: seq<Event>, e: Event)
    requires e.Serve? && (IsStatusProbe(e.request) <==> EffectOf(cfg, s.fence, e.request, RouteOf(cfg, e.request)).status)
    ensures var t := Step(cfg, s, e);
      && t.counts.requestSequence == s.counts.requestSequence + 1 && t.counts.totalRequests == s.counts.totalRequests + 1
      && t.counts.statusRequests == s.counts.statusRequests + Tick(StatusAt(cfg, hist, e))
      && t.counts.heartbeats == s.counts.heartbeats + Tick(HeartbeatAt(cfg, hist, e))
  {
    hide RouteOf, HeartbeatOk, IsStatusProbe, ServeRequest, Quotes, IsPoll;
    StepServe(cfg, s, e);
  }

  /** Requests, status probes and heartbeats are counted exactly. */
  lemma {:induction false} RunArrivals(cfg: Config, t: seq<Event>)
    ensures var c := Run(cfg, t).counts;
      && c.requestSequence == c.totalRequests == Count(cfg, RequestAt, t)
      && c.statusRequests == Count(cfg, StatusAt, t)
      && c.heartbeats == Count(cfg, HeartbeatAt, t)
  {
    hide Run, Step, RequestAt, StatusAt, HeartbeatAt;
    if t == [] {
      RunEmpty(cfg);
    } else {
      var n := |t| - 1;
      RunArrivals(cfg, t[..n]);
      RunNext(cfg, t);
      StepArrivals(cfg, Run(cfg, t[..n]), t[..n], t[n]);
    }
  }

  lemma StepEcho(cfg: Config, s: Core, hist: seq<Event>, e: Event)
    requires s.counts.heartbeats > 0 <==> Ever(cfg, HeartbeatAt, hist)
    ensures Step(cfg, s, e).flags.echoedEndpointCapability == (s.flags.echoedEndpointCapability || RenewalAt(cfg, hist, e))
  {
    hide RouteOf, HeartbeatOk, ServeRequest, Ever, Quotes, IsPoll;
    if e.Serve? {
      StepServe(cfg, s, e);
      HeartbeatShape(cfg, e.request);
    }
  }

  lemma HeartbeatShape(cfg: Config, r: Request)
    ensures HeartbeatOk(cfg, r) ==> r.heartbeat.Some? && |r.heartbeat.value.endpoints| == 1
  {
  }

  /** The capability counts as renewed exactly when some heartbeat after the first carried it. */
  lemma {:induction false} RunRenewal(cfg: Config, t: seq<Event>)
    ensures Run(cfg, t).flags.echoedEndpointCapability == Ever(cfg, RenewalAt, t)
  {
    hide Run, Step, RenewalAt, HeartbeatAt, Ever;
    if t == [] {
      RunEmpty(cfg);
      NoneYet(cfg, RenewalAt);
    } else {
      var n := |t| - 1;
      RunRenewal(cfg, t[..n]);
      RunNext(cfg, t);
      EverNext(cfg, RenewalAt, t);
      RunArrivals(cfg, t[..n]);
      CountZero(cfg, HeartbeatAt, t[..n]);
      StepEcho(cfg, Run(cfg, t[..n]), t[..n], t[n]);
    }
  }

  // ----- Cancellation -----

  lemma StepCancelled(cfg: Config, s: Core, hist: seq<Event>, e: Event)
    requires s.fence == CurrentFence(cfg, hist)
    ensures Step(cfg, s, e).flags.cancelled ==
      (s.flags.cancelled || (cfg.scenario == Cancellation &&
         (CompletionAt(cfg, hist, e) || (LeaseCheckAt(cfg, hist, e) && s.counts.leaseRequests + 1 >= 2))))
    ensures Step(cfg, s, e).late.afterCancellation ==
      s.late.afterCancellation + Tick(PollPathAt(cfg, hist, e) && s.flags.cancelled)
  {
    hide CurrentFence, RouteOf, CompletionOk, LeaseOk, Quotes, ServeRequest, IsPoll;
    if e.Serve? {
      StepServe(cfg, s, e);
    }
  }

  /** The job counts as cancelled exactly after a second lease check or a completion, where cancellation is tested. */
  lemma {:induction false} RunCancelled(cfg: Config, t: seq<Event>)
    requires ValidConfig(cfg)
    ensures Run(cfg, t).flags.cancelled == CancelledIn(cfg, t)
    ensures Run(cfg, t).late.afterCancellation == Count(cfg, PollAfterCancel, t)
  {
    hide Run, Step, CurrentFence, Rotated, RefusedIn, CompletionAt, LeaseCheckAt, PollPathAt, Ever;
    if t == [] {
      RunEmpty(cfg);
      NoneYet(cfg, CompletionAt);
    } else {
      var n := |t| - 1;
      RunCancelled(cfg, t[..n]);
      RunNext(cfg, t);
      RunLease(cfg, t[..n]);
      RunCounts(cfg, t[..n]);
      EverNext(cfg, CompletionAt, t);
      StepCancelled(cfg, Run(cfg, t[..n]), t[..n], t[n]);
    }
  }

  // ----- Claim before completion -----

  /** The number of the last request on which `p` happened, counting from one; zero if it never did. */
  ghost function LastNumber(cfg: Config, p: Occasion, t: seq<Event>): nat {
    if t == [] then 0
    else if p(cfg, t[..|t| - 1], t[|t| - 1]) then Count(cfg, RequestAt, t)
    else LastNumber(cfg, p, t[..|t| - 1])
  }

  lemma StepMarks(cfg: Config, s: Core, hist: seq<Event>, e: Event)
    requires s.fence == CurrentFence(cfg, hist) && s.flags.rotationReady == Rotated(cfg, hist)
    ensures var t := Step(cfg, s, e);
      && t.marks.claimSequence == (if AcceptedClaim(cfg, hist, e) then s.counts.requestSequence + 1 else s.marks.claimSequence)
      && t.marks.completeSequence == (if CompletionAt(cfg, hist, e) then s.counts.requestSequence + 1 else s.marks.completeSequence)
      && (AcceptedClaim(cfg, hist, e) || CompletionAt(cfg, hist, e) ==> RequestAt(cfg, hist, e))
  {
    hide CurrentFence, Rotated, RouteOf, ClaimOk, CompletionOk, Quotes, ServeRequest, IsPoll;
    if e.Serve? {
      CountKeeps(s, e.request);
      StepServe(cfg, s, e);
    }
    hide CountRequest;
  }

  /** The claim and completion marks number the last accepted claim and the last completion. */
  lemma {:induction false} RunMarks(cfg: Config, t: seq<Event>)
    requires ValidConfig(cfg)
    ensures Run(cfg, t).marks.claimSequence == LastNumber(cfg, AcceptedClaim, t)
    ensures Run(cfg, t).marks.completeSequence == LastNumber(cfg, CompletionAt, t)
  {
    hide Run, Step, CurrentFence, Rotated, RefusedIn, CompletionAt, AcceptedClaim, RequestAt;
    if t == [] {
      RunEmpty(cfg);
    } else {
      var n := |t| - 1;
      RunMarks(cfg, t[..n]);
      RunNext(cfg, t);
      RunLease(cfg, t[..n]);
      RunArrivals(cfg, t[..n]);
      StepMarks(cfg, Run(cfg, t[..n]), t[..n], t[n]);
    }
  }

  /** After the last `p`, some `q` happened. */
  ghost predicate FollowedBy(cfg: Config, p: Occasion, q: Occasion, t: seq<Event>) {
    exists k :: 0 <= k < |t| && q(cfg, t[..k], t[k]) && NoneFrom(cfg, p, t, k)
  }

  ghost predicate NoneFrom(cfg: Config, p: Occasion, t: seq<Event>, k: nat) {
    forall j :: k <= j < |t| ==> !p(cfg, t[..j], t[j])
  }

  lemma NoneFromNext(cfg: Config, p: Occasion, t: seq<Event>, k: nat)
    requires k < |t|
    ensures var n := |t| - 1;
      NoneFrom(cfg, p, t, k) <==> !p(cfg, t[..n], t[n]) && (k < n ==> NoneFrom(cfg, p, t[..n], k))
  {
    var n := |t| - 1;
    assert forall j :: 0 <= j < n ==> t[..n][..j] == t[..j] && t[..n][j] == t[j];
  }

  lemma FollowedNext(cfg: Config, p: Occasion, q: Occasion, t: seq<Event>)
    requires t != []
    ensures var n := |t| - 1;
      FollowedBy(cfg, p, q, t) <==>
        !p(cfg, t[..n], t[n]) && (q(cfg, t[..n], t[n]) || FollowedBy(cfg, p, q, t[..n]))
  {
    hide NoneFrom;
    var n := |t| - 1;
    var h := t[..n];
    forall k | 0 <= k < |t|
      ensures k < n ==> h[..k] == t[..k] && h[k] == t[k]
      ensures NoneFrom(cfg, p, t, k) <==> !p(cfg, h, t[n]) && (k < n ==> NoneFrom(cfg, p, h, k))
    {
      NoneFromNext(cfg, p, t, k);
    }
    if FollowedBy(cfg, p, q, h) {
      var k :| 0 <= k < n && q(cfg, h[..k], h[k]) && NoneFrom(cfg, p, h, k);
      assert q(cfg, t[..k], t[k]);
    }
  }

  /** Two kinds of requests that never coincide are ordered by their last numbers. */
  ghost predicate ApartOnRequests(p: Occasion, q: Occasion) {
    forall cfg, hist, e :: (p(cfg, hist, e) || q(cfg, hist, e) ==> RequestAt(cfg, hist, e)) && !(p(cfg, hist, e) && q(cfg, hist, e))
  }

  lemma {:induction false} LastNumberBound(cfg: Config, p: Occasion, t: seq<Event>)
    ensures LastNumber(cfg, p, t) <= Count(cfg, RequestAt, t)
  {
    hide RequestAt;
    if t != [] {
      LastNumberBound(cfg, p, t[..|t| - 1]);
    }
  }

  lemma {:induction false} LastNumbersOrder(cfg: Config, p: Occasion, q: Occasion, t: seq<Event>)
    requires ApartOnRequests(p, q)
    ensures LastNumber(cfg, p, t) < LastNumber(cfg, q, t) <==> FollowedBy(cfg, p, q, t)
  {
    hide RequestAt, FollowedBy;
    if t == [] {
      NotFollowed(cfg, p, q);
    } else {
      var n := |t| - 1;
      LastNumbersOrder(cfg, p, q, t[..n]);
      FollowedNext(cfg, p, q, t);
      LastNumberBound(cfg, p, t[..n]);
      LastNumberBound(cfg, q, t[..n]);
    }
  }

  lemma NotFollowed(cfg: Config, p: Occasion, q: Occasion)
    ensures !FollowedBy(cfg, p, q, [])
  {
  }

  lemma ClaimsApartFromCompletions()
    ensures ApartOnRequests(AcceptedClaim, CompletionAt)
  {
    hide CurrentFence, Rotated, RouteOf;
  }

  // ----- Verdicts -----

  predicate OneProbeVerdict(s: Core) {
    s.counts.totalRequests == 1 && s.counts.statusRequests == 1
  }

  ghost predicate OnlyAt(cfg: Config, p: Occasion, t: seq<Event>, k: int) {
    0 <= k < |t| && p(cfg, t[..k], t[k]) && forall j :: 0 <= j < |t| && j != k ==> !p(cfg, t[..j], t[j])
  }

  lemma {:induction false} CountOne(cfg: Config, p: Occasion, t: seq<Event>)
    ensures Count(cfg, p, t) == 1 <==> exists k :: OnlyAt(cfg, p, t, k)
  {
    if t == [] {
      assert Count(cfg, p, t) == 0;
    } else {
      var n := |t| - 1;
      CountOne(cfg, p, t[..n]);
      CountZero(cfg, p, t[..n]);
      OnlyAtNext(cfg, p, t);
      hide OnlyAt, Ever;
    }
  }

  lemma OnlyAtNext(cfg: Config, p: Occasion, t: seq<Event>)
    requires t != []
    ensures var n := |t| - 1; var last := p(cfg, t[..n], t[n]);
      (exists k :: OnlyAt(cfg, p, t, k)) <==>
        (if last then !Ever(cfg, p, t[..n]) else exists k :: OnlyAt(cfg, p, t[..n], k))
  {
    var n := |t| - 1;
    var h := t[..n];
    assert forall j :: 0 <= j < n ==> h[..j] == t[..j] && h[j] == t[j];
    if p(cfg, h, t[n]) {
      if !Ever(cfg, p, h) {
        assert OnlyAt(cfg, p, t, n);
      }
    } else {
      if k :| OnlyAt(cfg, p, t, k) {
        assert OnlyAt(cfg, p, h, k);
      }
      if k :| OnlyAt(cfg, p, h, k) {
        assert OnlyAt(cfg, p, t, k);
      }
    }
  }

  /** Not retrying: exactly one request is made in the whole run, and it is the status probe. */
  lemma OneProbeVerdictDecides(cfg: Config, t: seq<Event>)
    ensures OneProbeVerdict(Run(cfg, t)) <==>
      exists k :: OnlyAt(cfg, RequestAt, t, k) && StatusAt(cfg, t[..k], t[k])
  {
    RunArrivals(cfg, t);
    CountOne(cfg, RequestAt, t);
    CountOne(cfg, StatusAt, t);
    OnlyProbe(cfg, t);
    hide Run, Count, OnlyAt, StatusAt;
  }

  lemma OnlyProbe(cfg: Config, t: seq<Event>)
    ensures (exists k :: OnlyAt(cfg, RequestAt, t, k)) && (exists k :: OnlyAt(cfg, StatusAt, t, k)) <==>
      exists k :: OnlyAt(cfg, RequestAt, t, k) && StatusAt(cfg, t[..k], t[k])
  {
    hide IsStatusProbe;
    if i :| OnlyAt(cfg, RequestAt, t, i) {
      if j :| OnlyAt(cfg, StatusAt, t, j) {
        assert RequestAt(cfg, t[..j], t[j]);
      }
      if StatusAt(cfg, t[..i], t[i]) {
        assert OnlyAt(cfg, StatusAt, t, i);
      }
    }
    if k :| OnlyAt(cfg, RequestAt, t, k) && StatusAt(cfg, t[..k], t[k]) {
      assert forall j :: 0 <= j < |t| && j != k ==> !RequestAt(cfg, t[..j], t[j]);
      assert OnlyAt(cfg, StatusAt, t, k);
    }
  }

  predicate ExpiredLeaseVerdict(s: Core) {
    && s.counts.claimRequests == 1 && s.counts.progressRequests == 0 && s.counts.completeRequests == 0
    && s.late.afterLeaseRejection == 0 && s.violation.None?
  }

  /** One claim, and after it neither progress nor completion nor a poll for other work. */
  lemma ExpiredLeaseVerdictDecides(cfg: Config, t: seq<Event>)
    requires ValidConfig(cfg)
    ensures ExpiredLeaseVerdict(Run(cfg, t)) <==>
      && Count(cfg, ClaimAt, t) == 1 && !Ever(cfg, ProgressAt, t) && !Ever(cfg, CompletionAt, t)
      && !Ever(cfg, PollAfterRefusal, t) && Obedient(cfg, t)
  {
    RunCounts(cfg, t);
    RunLatePolls(cfg, t);
    ViolationDecides(cfg, t);
    CountZero(cfg, ProgressAt, t);
    CountZero(cfg, CompletionAt, t);
    CountZero(cfg, PollAfterRefusal, t);
    hide Run, Ever, Count, Obedient;
  }

  /** The three lifecycle checks together. */
  predicate LifecycleVerdict(s: Core) {
    && s.flags.completed && s.violation.None?
    && s.counts.heartbeats >= 2 && s.flags.echoedEndpointCapability
    && s.flags.claimed && s.marks.claimSequence < s.marks.completeSequence
  }

  /** Work finished by the rules, the capability renewed, and a completion after the last accepted claim. */
  lemma LifecycleVerdictDecides(cfg: Config, t: seq<Event>)
    requires ValidConfig(cfg)
    ensures LifecycleVerdict(Run(cfg, t)) <==>
      && Ever(cfg, FinishAt, t) && Obedient(cfg, t) && Count(cfg, HeartbeatAt, t) >= 2 && Ever(cfg, RenewalAt, t)
      && Ever(cfg, AcceptedClaim, t) && FollowedBy(cfg, AcceptedClaim, CompletionAt, t)
  {
    RunClaims(cfg, t);
    ViolationDecides(cfg, t);
    RunArrivals(cfg, t);
    RunRenewal(cfg, t);
    RunMarks(cfg, t);
    ClaimsApartFromCompletions();
    LastNumbersOrder(cfg, AcceptedClaim, CompletionAt, t);
    hide Run, Ever, Count, Obedient, LastNumber, FollowedBy, ApartOnRequests;
  }

  /** A passing lifecycle: every completion that ends the job comes after an accepted claim, not only the last one. */
  lemma LifecycleVerdictMeans(cfg: Config, t: seq<Event>)
    requires ValidConfig(cfg) && LifecycleVerdict(Run(cfg, t))
    ensures exists k :: 0 <= k < |t| && FinishAt(cfg, t[..k], t[k])
    ensures forall k :: 0 <= k < |t| && FinishAt(cfg, t[..k], t[k]) ==> Ever(cfg, AcceptedClaim, t[..k])
  {
    hide Run, FinishAt, AcceptedClaim, Obedient, FollowedBy;
    LifecycleVerdictDecides(cfg, t);
    forall k | 0 <= k < |t| && FinishAt(cfg, t[..k], t[k])
      ensures Ever(cfg, AcceptedClaim, t[..k])
    {
      FinishWasClaimed(cfg, t, k);
    }
  }

  predicate CancellationVerdict(s: Core) {
    && s.flags.cancelled && s.flags.claimed && s.counts.claimRequests == 1 && s.counts.leaseRequests >= 2
    && s.counts.completeRequests == 0 && s.late.afterCancellation == 0 && s.violation.None?
  }

  /** One accepted claim, the lease checked again until it was cancelled, and nothing attempted after that. */
  lemma CancellationVerdictDecides(cfg: Config, t: seq<Event>)
    requires ValidConfig(cfg) && cfg.scenario == Cancellation
    ensures CancellationVerdict(Run(cfg, t)) <==>
      && Ever(cfg, AcceptedClaim, t) && Count(cfg, ClaimAt, t) == 1 && Count(cfg, LeaseCheckAt, t) >= 2
      && !Ever(cfg, CompletionAt, t) && !Ever(cfg, PollAfterCancel, t) && Obedient(cfg, t)
  {
    RunCancelled(cfg, t);
    RunClaims(cfg, t);
    RunCounts(cfg, t);
    ViolationDecides(cfg, t);
    CountZero(cfg, CompletionAt, t);
    CountZero(cfg, PollAfterCancel, t);
    hide Run, Ever, Count, Obedient;
  }
}
