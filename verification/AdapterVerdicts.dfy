/** The violation field and the verdicts of the conformance report decide properties of the whole run. */
module AdapterVerdicts {
  import opened Wrappers
  import opened AdapterProtocol
  import opened AdapterTrace

  // ----- Progress numbers -----

  /** `m` bounds the progress numbers of the current lease and is one of them, or zero if there is none. */
  ghost predicate TopProgress(cfg: Config, t: seq<Event>, m: nat) {
    && (forall k :: 0 <= k < |t| && ProgressAt(cfg, t[..k], t[k]) && NoRotationSince(cfg, t, k) ==>
          t[k].request.progress.value.sequence <= m)
    && (m == 0 || exists k :: 0 <= k < |t| && ProgressAt(cfg, t[..k], t[k]) && NoRotationSince(cfg, t, k)
                              && t[k].request.progress.value.sequence == m)
  }

  lemma TopDecides(cfg: Config, t: seq<Event>, m: nat, n: nat)
    requires TopProgress(cfg, t, m) && n > 0
    ensures Increases(cfg, t, n) <==> m < n
  {
    hide ProgressAt, NoRotationSince;
    if m != 0 {
      var k :| 0 <= k < |t| && ProgressAt(cfg, t[..k], t[k]) && NoRotationSince(cfg, t, k)
               && t[k].request.progress.value.sequence == m;
    }
  }

  lemma TopAfterRotation(cfg: Config, t: seq<Event>)
    requires t != [] && RotatesAt(cfg, t[..|t| - 1], t[|t| - 1])
    ensures TopProgress(cfg, t, 0)
  {
    hide ProgressAt, RotatesAt, NoRotationSince;
    forall k | 0 <= k < |t|
      ensures !NoRotationSince(cfg, t, k)
    {
      NoRotationNext(cfg, t, k);
    }
  }

  lemma TopWithoutProgress(cfg: Config, t: seq<Event>, m: nat)
    requires t != [] && !RotatesAt(cfg, t[..|t| - 1], t[|t| - 1]) && !ProgressAt(cfg, t[..|t| - 1], t[|t| - 1])
    requires TopProgress(cfg, t[..|t| - 1], m)
    ensures TopProgress(cfg, t, m)
  {
    hide ProgressAt, RotatesAt, NoRotationSince;
    var n := |t| - 1;
    var h := t[..n];
    forall k | 0 <= k < n
      ensures h[..k] == t[..k] && h[k] == t[k] && (NoRotationSince(cfg, t, k) <==> NoRotationSince(cfg, h, k))
    {
      NoRotationNext(cfg, t, k);
    }
    if m != 0 {
      var k :| 0 <= k < n && ProgressAt(cfg, h[..k], h[k]) && NoRotationSince(cfg, h, k)
               && h[k].request.progress.value.sequence == m;
      assert ProgressAt(cfg, t[..k], t[k]) && NoRotationSince(cfg, t, k);
    }
  }

  lemma TopWithProgress(cfg: Config, t: seq<Event>, m: nat)
    requires t != [] && ProgressAt(cfg, t[..|t| - 1], t[|t| - 1]) && !RotatesAt(cfg, t[..|t| - 1], t[|t| - 1])
    requires TopProgress(cfg, t[..|t| - 1], m) && m <= t[|t| - 1].request.progress.value.sequence
    ensures TopProgress(cfg, t, t[|t| - 1].request.progress.value.sequence)
  {
    hide ProgressAt, RotatesAt, NoRotationSince;
    var n := |t| - 1;
    var h := t[..n];
    forall k | 0 <= k < n
      ensures h[..k] == t[..k] && h[k] == t[k] && (NoRotationSince(cfg, t, k) ==> NoRotationSince(cfg, h, k))
    {
      NoRotationNext(cfg, t, k);
    }
    NoRotationNext(cfg, t, n);
    assert ProgressAt(cfg, t[..n], t[n]) && NoRotationSince(cfg, t, n);
  }

  lemma StepProgress(cfg: Config, s: Core, hist: seq<Event>, e: Event)
    requires s.fence == CurrentFence(cfg, hist) && s.flags.rotationReady == Rotated(cfg, hist)
    requires s.flags.leaseRejected == RefusedIn(cfg, hist)
    ensures Step(cfg, s, e).marks.progressSequence ==
            if RotatesAt(cfg, hist, e) then 0
            else if ProgressAt(cfg, hist, e) then e.request.progress.value.sequence
            else s.marks.progressSequence
    ensures ProgressAt(cfg, hist, e) ==> !RotatesAt(cfg, hist, e)
  {
    hide CurrentFence, Rotated, RefusedIn, RouteOf, Quotes, ServeRequest;
    if e.Serve? {
      StepServe(cfg, s, e);
    }
  }

  lemma ObedientProgress(cfg: Config, hist: seq<Event>, e: Event)
    requires Obeys(cfg, hist, e) && ProgressAt(cfg, hist, e)
    ensures Increases(cfg, hist, e.request.progress.value.sequence) && e.request.progress.value.sequence > 0
  {
    hide CurrentFence, Increases, RouteOf;
  }

  /** While the run obeys, the progress field is the largest number reported under the current lease. */
  lemma {:induction false} RunProgress(cfg: Config, t: seq<Event>)
    requires ValidConfig(cfg) && Obedient(cfg, t)
    ensures TopProgress(cfg, t, Run(cfg, t).marks.progressSequence)
  {
    hide Run, Step, CurrentFence, Rotated, RefusedIn, Obedient, Obeys, TopProgress, ProgressAt, RotatesAt, Increases;
    if t == [] {
      RunEmpty(cfg);
      NoProgressYet(cfg);
    } else {
      var n := |t| - 1;
      var s := Run(cfg, t[..n]);
      ObedientNext(cfg, t);
      RunProgress(cfg, t[..n]);
      RunNext(cfg, t);
      RunLease(cfg, t[..n]);
      StepProgress(cfg, s, t[..n], t[n]);
      if RotatesAt(cfg, t[..n], t[n]) {
        TopAfterRotation(cfg, t);
      } else if ProgressAt(cfg, t[..n], t[n]) {
        ObedientProgress(cfg, t[..n], t[n]);
        TopDecides(cfg, t[..n], s.marks.progressSequence, t[n].request.progress.value.sequence);
        TopWithProgress(cfg, t, s.marks.progressSequence);
      } else {
        TopWithoutProgress(cfg, t, s.marks.progressSequence);
      }
    }
  }

  lemma NoProgressYet(cfg: Config)
    ensures TopProgress(cfg, [], 0)
  {
  }

  /** In a run without violations, progress numbers rise strictly within each lease. */
  lemma ProgressRises(cfg: Config, t: seq<Event>, i: nat, j: nat)
    requires ValidConfig(cfg) && Run(cfg, t).violation.None?
    requires i < j < |t| && ProgressAt(cfg, t[..i], t[i]) && ProgressAt(cfg, t[..j], t[j])
    requires forall k :: i < k < j ==> !RotatesAt(cfg, t[..k], t[k])
    ensures t[i].request.progress.value.sequence < t[j].request.progress.value.sequence
  {
    hide Run, Obeys, Obedient, RotatesAt, ProgressAt, Increases, NoRotationSince;
    ViolationDecides(cfg, t);
    ObeysEach(cfg, t, j);
    ObedientProgress(cfg, t[..j], t[j]);
    SameLease(cfg, t, i, j);
    IncreasesPast(cfg, t[..j], i, t[j].request.progress.value.sequence);
  }

  lemma ObeysEach(cfg: Config, t: seq<Event>, k: nat)
    requires Obedient(cfg, t) && k < |t|
    ensures Obeys(cfg, t[..k], t[k])
  {
  }

  lemma SameLease(cfg: Config, t: seq<Event>, i: nat, j: nat)
    requires i < j < |t| && ProgressAt(cfg, t[..i], t[i])
    requires forall k :: i < k < j ==> !RotatesAt(cfg, t[..k], t[k])
    ensures t[..j][..i] == t[..i] && t[..j][i] == t[i] && NoRotationSince(cfg, t[..j], i)
  {
    hide RotatesAt, ProgressAt;
    ServedIsNoRotation(cfg, t[..i], t[i]);
    assert forall k :: 0 <= k < j ==> t[..j][..k] == t[..k] && t[..j][k] == t[k];
  }

  lemma IncreasesPast(cfg: Config, hist: seq<Event>, i: nat, n: nat)
    requires Increases(cfg, hist, n) && i < |hist|
    requires ProgressAt(cfg, hist[..i], hist[i]) && NoRotationSince(cfg, hist, i)
    ensures hist[i].request.progress.value.sequence < n
  {
    hide NoRotationSince;
  }

  lemma ServedIsNoRotation(cfg: Config, hist: seq<Event>, e: Event)
    requires ProgressAt(cfg, hist, e)
    ensures !RotatesAt(cfg, hist, e) && e.Serve? && e.request.progress.Some?
  {
  }

  // ----- The violation field -----

  lemma AcceptsIsObeys(cfg: Config, s: Core, hist: seq<Event>, r: Request)
    requires s.fence == CurrentFence(cfg, hist) && s.flags.claimed == Ever(cfg, AcceptedClaim, hist)
    requires TopProgress(cfg, hist, s.marks.progressSequence)
    ensures Accepts(cfg, s, r, RouteOf(cfg, r)) <==> Obeys(cfg, hist, Serve(r))
  {
    hide CurrentFence, Ever, Increases, TopProgress, RouteOf, Quotes, HeartbeatOk, PollOk, ClaimOk, LeaseOk, IsStatusProbe;
    if ProgressOk(r) {
      TopDecides(cfg, hist, s.marks.progressSequence, r.progress.value.sequence);
    }
  }

  /** The violation field is empty exactly when every event of the run obeyed the protocol. */
  lemma {:induction false} ViolationDecides(cfg: Config, t: seq<Event>)
    requires ValidConfig(cfg)
    ensures Run(cfg, t).violation.None? <==> Obedient(cfg, t)
  {
    hide Run, Step, CurrentFence, Ever, Obeys, TopProgress, RouteOf, Accepts, Rotated, RefusedIn;
    if t == [] {
      RunEmpty(cfg);
    } else {
      var n := |t| - 1;
      var s := Run(cfg, t[..n]);
      ViolationDecides(cfg, t[..n]);
      RunNext(cfg, t);
      ObedientNext(cfg, t);
      StepViolation(cfg, s, t[n]);
      if Obedient(cfg, t[..n]) {
        RunLease(cfg, t[..n]);
        RunClaims(cfg, t[..n]);
        RunProgress(cfg, t[..n]);
        if t[n].Serve? {
          AcceptsIsObeys(cfg, s, t[..n], t[n].request);
        } else {
          ObeysOther(cfg, t[..n], t[n]);
        }
      }
      hide Obedient;
    }
  }

  lemma ObeysOther(cfg: Config, hist: seq<Event>, e: Event)
    requires !e.Serve?
    ensures Obeys(cfg, hist, e) <==> e.Rotate?
  {
  }

  /** Once a violation is recorded, nothing that follows clears or replaces it. */
  lemma {:induction false} ViolationIsFinal(cfg: Config, t: seq<Event>, k: nat)
    requires k <= |t| && Run(cfg, t[..k]).violation.Some?
    ensures Run(cfg, t).violation == Run(cfg, t[..k]).violation
    decreases |t|
  {
    hide Run, Step, Accepts, RouteOf;
    if k == |t| {
      assert t[..k] == t;
    } else {
      var n := |t| - 1;
      assert t[..n][..k] == t[..k];
      ViolationIsFinal(cfg, t[..n], k);
      RunNext(cfg, t);
      StepViolation(cfg, Run(cfg, t[..n]), t[n]);
    }
  }

  // ----- Verdicts -----

  predicate RotationVerdict(s: Core) {
    && s.flags.leaseRotated && s.counts.leaseGrants == 2 && s.counts.claimRequests == 2 && s.flags.completed
    && s.late.afterLeaseRejection == 0 && s.violation.None?
  }

  predicate AmbiguousVerdict(s: Core) {
    s.counts.completeRequests == 1 && s.late.afterComplete == 0 && s.violation.None?
  }

  lemma {:induction false} CountZero(cfg: Config, p: Occasion, t: seq<Event>)
    ensures Count(cfg, p, t) == 0 <==> !Ever(cfg, p, t)
  {
    hide Ever;
    if t == [] {
      NoneYet(cfg, p);
    } else {
      EverNext(cfg, p, t);
      CountZero(cfg, p, t[..|t| - 1]);
    }
  }

  lemma {:induction false} ClaimsSplit(cfg: Config, t: seq<Event>)
    ensures Count(cfg, ClaimAt, t) == Count(cfg, RefusedClaim, t) + Count(cfg, AcceptedClaim, t)
  {
    hide ClaimAt, Rotated, Refuses;
    if t != [] {
      ClaimsSplit(cfg, t[..|t| - 1]);
    }
  }

  /**
   * The ambiguous-completion verdict holds exactly when the run has one well-formed completion, no poll after the work
   * was finished, and no violation.
   */
  lemma AmbiguousVerdictDecides(cfg: Config, t: seq<Event>)
    requires ValidConfig(cfg)
    ensures AmbiguousVerdict(Run(cfg, t)) <==>
            Count(cfg, CompletionAt, t) == 1 && !Ever(cfg, PollAfterFinish, t) && Obedient(cfg, t)
  {
    RunCounts(cfg, t);
    RunLatePolls(cfg, t);
    ViolationDecides(cfg, t);
    CountZero(cfg, PollAfterFinish, t);
    hide Run, Ever, Count, Obedient;
  }

  lemma RotationVerdictDecides(cfg: Config, t: seq<Event>)
    requires ValidConfig(cfg)
    ensures RotationVerdict(Run(cfg, t)) <==>
            && Rotated(cfg, t) && Count(cfg, GrantAt, t) == 2 && Count(cfg, ClaimAt, t) == 2 && Ever(cfg, FinishAt, t)
            && !Ever(cfg, PollAfterRefusal, t) && Obedient(cfg, t)
  {
    RunLease(cfg, t);
    RunGrants(cfg, t);
    RunCounts(cfg, t);
    RunClaims(cfg, t);
    RunLatePolls(cfg, t);
    ViolationDecides(cfg, t);
    CountZero(cfg, PollAfterRefusal, t);
    hide Run, Ever, Count, Obedient, Rotated, CurrentFence, RefusedIn, Delivered;
  }

  lemma FinishWasClaimed(cfg: Config, t: seq<Event>, k: nat)
    requires Obedient(cfg, t) && k < |t| && FinishAt(cfg, t[..k], t[k])
    ensures Ever(cfg, AcceptedClaim, t[..k])
  {
    hide CurrentFence, Ever, RouteOf;
    assert Obeys(cfg, t[..k], t[k]);
  }

  lemma EverLater(cfg: Config, p: Occasion, t: seq<Event>, k: nat)
    requires k <= |t| && Ever(cfg, p, t[..k])
    ensures Ever(cfg, p, t)
  {
    var j :| 0 <= j < k && p(cfg, t[..k][..j], t[..k][j]);
    assert t[..k][..j] == t[..j];
  }

  lemma RefusedIsEver(cfg: Config, t: seq<Event>)
    requires RefusedIn(cfg, t)
    ensures Ever(cfg, RefusedClaim, t)
  {
    hide RefusedClaim;
    var k :| 0 <= k < |t| && RefusedClaim(cfg, t[..k], t[k]);
  }

  /** The lease a claim or completion quotes: the first generation before the rotation, the next one after. */
  lemma FenceOf(cfg: Config, t: seq<Event>, k: nat)
    requires ValidConfig(cfg) && k <= |t|
    ensures CurrentFence(cfg, t[..k]).generation == cfg.leaseGeneration + (if Rotated(cfg, t[..k]) then 1 else 0)
  {
    RunLease(cfg, t[..k]);
  }

  /**
   * A passing rotation verdict means exactly one claim refused under the first lease and exactly one accepted under the
   * next, and every completion quotes the next lease and comes after that accepted claim.
   */
  lemma RotationVerdictMeans(cfg: Config, t: seq<Event>)
    requires ValidConfig(cfg) && cfg.scenario == LeaseRotation && RotationVerdict(Run(cfg, t))
    ensures Count(cfg, RefusedClaim, t) == 1 && Count(cfg, AcceptedClaim, t) == 1
    ensures forall k :: 0 <= k < |t| && RefusedClaim(cfg, t[..k], t[k]) ==>
              t[k].request.leaseGeneration == Decimal(cfg.leaseGeneration)
    ensures forall k :: 0 <= k < |t| && AcceptedClaim(cfg, t[..k], t[k]) ==>
              t[k].request.leaseGeneration == Decimal(cfg.leaseGeneration + 1)
    ensures exists k :: 0 <= k < |t| && FinishAt(cfg, t[..k], t[k])
    ensures forall k :: 0 <= k < |t| && FinishAt(cfg, t[..k], t[k]) ==>
              && t[k].request.leaseGeneration == Decimal(cfg.leaseGeneration + 1)
              && Ever(cfg, AcceptedClaim, t[..k])
    ensures Decimal(cfg.leaseGeneration) != Decimal(cfg.leaseGeneration + 1)
  {
    RotationVerdictDecides(cfg, t);
    RunLease(cfg, t);
    ClaimCounts(cfg, t);
    DecimalInjective(cfg.leaseGeneration, cfg.leaseGeneration + 1);
    hide Run, Rotated, CurrentFence, RefusedIn, RefusedClaim, AcceptedClaim, FinishAt, Decimal, Obedient, Count;
    forall k | 0 <= k < |t| && RefusedClaim(cfg, t[..k], t[k])
      ensures t[k].Serve? && t[k].request.leaseGeneration == Decimal(cfg.leaseGeneration)
    {
      RefusedQuotes(cfg, t, k);
    }
    forall k | 0 <= k < |t| && AcceptedClaim(cfg, t[..k], t[k])
      ensures t[k].Serve? && t[k].request.leaseGeneration == Decimal(cfg.leaseGeneration + 1)
    {
      AcceptedQuotes(cfg, t, k);
    }
    forall k | 0 <= k < |t| && FinishAt(cfg, t[..k], t[k])
      ensures t[k].Serve? && t[k].request.leaseGeneration == Decimal(cfg.leaseGeneration + 1)
      ensures Ever(cfg, AcceptedClaim, t[..k])
    {
      FinishQuotes(cfg, t, k);
    }
  }

  lemma ClaimCounts(cfg: Config, t: seq<Event>)
    requires RefusedIn(cfg, t) && Ever(cfg, FinishAt, t) && Obedient(cfg, t) && Count(cfg, ClaimAt, t) == 2
    ensures Count(cfg, RefusedClaim, t) == 1 && Count(cfg, AcceptedClaim, t) == 1
  {
    hide Count, RefusedIn, FinishAt, AcceptedClaim, RefusedClaim, Obedient;
    ClaimsSplit(cfg, t);
    RefusedIsEver(cfg, t);
    CountZero(cfg, RefusedClaim, t);
    var k :| 0 <= k < |t| && FinishAt(cfg, t[..k], t[k]);
    FinishWasClaimed(cfg, t, k);
    EverLater(cfg, AcceptedClaim, t, k);
    CountZero(cfg, AcceptedClaim, t);
  }

  lemma RefusedQuotes(cfg: Config, t: seq<Event>, k: nat)
    requires ValidConfig(cfg) && cfg.scenario == LeaseRotation && k < |t| && RefusedClaim(cfg, t[..k], t[k])
    ensures t[k].Serve? && t[k].request.leaseGeneration == Decimal(cfg.leaseGeneration)
  {
    hide Rotated, CurrentFence, Decimal, RouteOf;
    FenceOf(cfg, t, k);
  }

  lemma AcceptedQuotes(cfg: Config, t: seq<Event>, k: nat)
    requires ValidConfig(cfg) && cfg.scenario == LeaseRotation && k < |t| && AcceptedClaim(cfg, t[..k], t[k])
    ensures t[k].Serve? && t[k].request.leaseGeneration == Decimal(cfg.leaseGeneration + 1)
  {
    hide Rotated, CurrentFence, Decimal, RouteOf;
    FenceOf(cfg, t, k);
  }

  lemma FinishQuotes(cfg: Config, t: seq<Event>, k: nat)
    requires ValidConfig(cfg) && cfg.scenario == LeaseRotation && Obedient(cfg, t)
    requires k < |t| && FinishAt(cfg, t[..k], t[k])
    ensures t[k].Serve? && t[k].request.leaseGeneration == Decimal(cfg.leaseGeneration + 1)
    ensures Ever(cfg, AcceptedClaim, t[..k])
  {
    hide Rotated, CurrentFence, Decimal, RouteOf, AcceptedClaim, Ever, Obedient;
    FinishWasClaimed(cfg, t, k);
    NoClaimBeforeRotation(cfg, t[..k]);
    FenceOf(cfg, t, k);
  }
}
