/** An agent run: the steps of a plan submitted in order, under one cost authority, each fed by the result before it. */
module AgentRun {
  import opened Wrappers
  import opened AgentBudget
  import opened AgentHandoff

  /** What became of a submitted job: it failed or gave no whole output; or its output holds text, or none. */
  datatype Outcome = JobFailed | NoText | Text(value: string)

  /** A job as the relay reports it, with the cost reserved for it. */
  datatype Answer = Answer(reserved: Usd, outcome: Outcome)

  datatype Plan = Plan(steps: seq<Step>, maxCost: Usd, planner: string, plannerReserved: Usd)

  /**
   * What the run meets: which providers' costs count, which targets have one route, and, per step, whether it is
   * confirmed and what its job comes to.
   */
  datatype World = World(cfg: Config, counts: string -> bool, routed: (string, string) -> bool,
                         confirms: seq<bool>, answers: seq<Answer>)

  /** A job that was submitted: its input, the ceiling it was told, and its answer. */
  datatype Submission = Submission(input: JobInput, told: Permission, answer: Answer)

  datatype Stop = PlannerOverdrawn | NoInput | NoRoute | Exhausted | Declined | Failed | Overdrawn | Unreadable | Completed

  ghost predicate Fitting(w: World, p: Plan) {
    |w.confirms| == |w.answers| == |p.steps|
  }

  // ----- What each step meets -----

  /** The result a step sees: the text of the step before it. */
  ghost function Previous(w: World, k: nat): string
    requires k <= |w.answers|
  {
    if k > 0 && w.answers[k - 1].outcome.Text? then w.answers[k - 1].outcome.value else ""
  }

  ghost function Input(w: World, p: Plan, k: nat): Option<JobInput>
    requires Fitting(w, p) && k < |p.steps|
  {
    InputFor(w.cfg, p.steps, k, Previous(w, k))
  }

  predicate Charged(w: World, p: Plan, k: nat)
    requires k < |p.steps|
  {
    Positive(p.maxCost) && w.counts(p.steps[k].provider)
  }

  /** The authority left before step `k`. */
  ghost function Left(w: World, p: Plan, k: nat): Usd
    requires Fitting(w, p) && k <= |p.steps|
  {
    if k == 0 then Opening(w.counts, p.maxCost, p.planner, p.plannerReserved)
    else if Charged(w, p, k - 1) then After(Left(w, p, k - 1), w.answers[k - 1].reserved)
    else Left(w, p, k - 1)
  }

  ghost function Told(w: World, p: Plan, k: nat): Permission
    requires Fitting(w, p) && k < |p.steps|
  {
    if !Charged(w, p, k) then Unlimited
    else if Positive(Left(w, p, k)) || Left(w, p, k).NaN? then Ceiling(Left(w, p, k))
    else Refused
  }

  /** Why step `k` is not submitted, in the order of the tests. */
  ghost function Blocked(w: World, p: Plan, k: nat): Option<Stop>
    requires Fitting(w, p) && k < |p.steps|
  {
    if Input(w, p, k).None? then Some(NoInput)
    else if !w.routed(p.steps[k].provider, p.steps[k].profile) then Some(NoRoute)
    else if Told(w, p, k).Refused? then Some(Exhausted)
    else if !w.confirms[k] then Some(Declined)
    else None
  }

  /** Why the run ends after the job of step `k`, in the order of the tests. */
  ghost function Ended(w: World, p: Plan, k: nat): Option<Stop>
    requires Fitting(w, p) && k < |p.steps|
  {
    if w.answers[k].outcome.JobFailed? then Some(Failed)
    else if Charged(w, p, k) && !Fits(Left(w, p, k), w.answers[k].reserved) then Some(Overdrawn)
    else if w.answers[k].outcome.NoText? then Some(Unreadable)
    else None
  }

  ghost predicate SubmittedAt(w: World, p: Plan, k: nat, s: Submission)
    requires Fitting(w, p) && k < |p.steps|
  {
    Blocked(w, p, k).None? && s == Submission(Input(w, p, k).value, Told(w, p, k), w.answers[k])
  }

  /** Every submitted job, and why there was no further one. */
  ghost predicate Ran(w: World, p: Plan, subs: seq<Submission>, stop: Stop) {
    Fitting(w, p) &&
    if !PlannerFits(w.counts, p.maxCost, p.planner, p.plannerReserved) then subs == [] && stop == PlannerOverdrawn
    else
      && |subs| <= |p.steps|
      && (forall k :: 0 <= k < |subs| ==> SubmittedAt(w, p, k, subs[k]))
      && (forall k :: 0 <= k < |subs| - 1 ==> Ended(w, p, k).None?)
      && Some(stop) == StopAfter(w, p, |subs|)
  }

  /** Why the run stops with `n` jobs submitted; None when it goes on. */
  ghost function StopAfter(w: World, p: Plan, n: nat): Option<Stop>
    requires Fitting(w, p) && n <= |p.steps|
  {
    if n > 0 && Ended(w, p, n - 1).Some? then Ended(w, p, n - 1)
    else if n == |p.steps| then Some(Completed)
    else Blocked(w, p, n)
  }

  // ----- The loop -----

  method SubmitStep(w: World, p: Plan, k: nat, previous: string, budget: AgentRunBudget)
    returns (sub: Option<Submission>, stop: Stop)
    requires Fitting(w, p) && k < |p.steps| && previous == Previous(w, k)
    requires budget.counts == w.counts && budget.enforced == Positive(p.maxCost) && budget.remaining == Left(w, p, k)
    ensures sub.Some? ==> SubmittedAt(w, p, k, sub.value)
    ensures sub.None? ==> Blocked(w, p, k) == Some(stop)
  {
    hide InputFor;
    sub, stop := None, NoInput;
    var input := InputFor(w.cfg, p.steps, k, previous);
    if input.None? {
      return;
    }
    if !w.routed(p.steps[k].provider, p.steps[k].profile) {
      return None, NoRoute;
    }
    var told := budget.Authorize(p.steps[k].provider);
    if told.Refused? {
      return None, Exhausted;
    }
    if !w.confirms[k] {
      return None, Declined;
    }
    sub := Some(Submission(input.value, told, w.answers[k]));
  }

  method SettleStep(w: World, p: Plan, k: nat, budget: AgentRunBudget) returns (result: Option<string>, stop: Stop)
    requires Fitting(w, p) && k < |p.steps|
    requires budget.counts == w.counts && budget.enforced == Positive(p.maxCost) && budget.remaining == Left(w, p, k)
    modifies budget
    ensures result.Some? ==>
      Ended(w, p, k).None? && result.value == Previous(w, k + 1) && budget.remaining == Left(w, p, k + 1)
    ensures result.None? ==> Ended(w, p, k) == Some(stop)
  {
    hide Fits, After;
    result, stop := None, Failed;
    var answer := w.answers[k];
    if answer.outcome.JobFailed? {
      return;
    }
    var ok := budget.Consume(p.steps[k].provider, answer.reserved);
    if !ok {
      return None, Overdrawn;
    }
    if answer.outcome.NoText? {
      return None, Unreadable;
    }
    result := Some(answer.outcome.value);
  }

  method ExecutePlan(w: World, p: Plan) returns (subs: seq<Submission>, stop: Stop)
    requires Fitting(w, p)
    ensures Ran(w, p, subs, stop)
  {
    hide SubmittedAt, Ended, Blocked, Left, Opening, PlannerFits;
    subs, stop := [], PlannerOverdrawn;
    var budget, planned := NewRunBudget(w.counts, p.maxCost, p.planner, p.plannerReserved);
    if !planned {
      return;
    }
    OpeningLeft(w, p);
    var previous := "";
    for k := 0 to |p.steps|
      invariant |subs| == k && previous == Previous(w, k) && fresh(budget)
      invariant budget.counts == w.counts && budget.enforced == Positive(p.maxCost) && budget.remaining == Left(w, p, k)
      invariant forall i :: 0 <= i < k ==> SubmittedAt(w, p, i, subs[i]) && Ended(w, p, i).None?
    {
      var sub;
      sub, stop := SubmitStep(w, p, k, previous, budget);
      if sub.None? {
        return;
      }
      subs := subs + [sub.value];
      var result;
      result, stop := SettleStep(w, p, k, budget);
      if result.None? {
        return;
      }
      previous := result.value;
    }
    stop := Completed;
  }

  lemma OpeningLeft(w: World, p: Plan)
    requires Fitting(w, p)
    ensures Left(w, p, 0) == Opening(w.counts, p.maxCost, p.planner, p.plannerReserved)
  {
  }

  /** A plan meets a world in one way only: the jobs and the reason to stop are determined. */
  lemma OneRun(w: World, p: Plan, subs: seq<Submission>, stop: Stop, subs': seq<Submission>, stop': Stop)
    requires Ran(w, p, subs, stop) && Ran(w, p, subs', stop')
    ensures subs == subs' && stop == stop'
  {
    hide Ended, Input, Told, Blocked;
    StopsFirst(w, p, subs, stop, subs', stop');
    StopsFirst(w, p, subs', stop', subs, stop);
  }

  lemma StopsFirst(w: World, p: Plan, subs: seq<Submission>, stop: Stop, more: seq<Submission>, stop': Stop)
    requires Ran(w, p, subs, stop) && Ran(w, p, more, stop')
    ensures |subs| >= |more|
  {
    hide StopAfter, SubmittedAt, Ended;
    if |subs| < |more| {
      GoesOn(w, p, more, stop', |subs|);
    }
  }

  lemma GoesOn(w: World, p: Plan, subs: seq<Submission>, stop: Stop, n: nat)
    requires Ran(w, p, subs, stop) && n < |subs|
    ensures StopAfter(w, p, n).None?
  {
    hide Ended, Input, Told, Blocked;
    assert SubmittedAt(w, p, n, subs[n]);
  }

  // ----- The authority -----

  /** What the charged jobs of the first `k` steps reserved. */
  ghost function Spent(w: World, p: Plan, k: nat): real
    requires Fitting(w, p) && k <= |p.steps|
  {
    if k == 0 then 0.0
    else Spent(w, p, k - 1)
         + (if Charged(w, p, k - 1) && w.answers[k - 1].reserved.Finite? then w.answers[k - 1].reserved.value else 0.0)
  }

  /** All that was reserved against the authority: the planner's share and the charged jobs of the first `k` steps. */
  ghost function Total(w: World, p: Plan, k: nat): real
    requires Fitting(w, p) && k <= |p.steps|
  {
    Share(w.counts, p.planner, p.plannerReserved) + Spent(w, p, k)
  }

  lemma {:induction false} LeftIsUnspent(w: World, p: Plan, subs: seq<Submission>, stop: Stop, k: nat)
    requires Ran(w, p, subs, stop) && Limited(p.maxCost)
    requires PlannerFits(w.counts, p.maxCost, p.planner, p.plannerReserved)
    requires k <= |subs| && (k == |subs| ==> k == 0 || Ended(w, p, k - 1).None?)
    ensures Balanced(p.maxCost.value, Total(w, p, k), Left(w, p, k))
  {
    hide Input, Ended, Fits, After, Blocked, PlannerFits;
    if k == 0 {
      OpeningBalanced(w, p);
    } else {
      LeftIsUnspent(w, p, subs, stop, k - 1);
      assert SubmittedAt(w, p, k - 1, subs[k - 1]);
      if Charged(w, p, k - 1) {
        ChargedFits(w, p, k - 1);
        ReservedFinite(Left(w, p, k - 1), w.answers[k - 1].reserved);
        BalanceKept(p.maxCost.value, Total(w, p, k - 1), Left(w, p, k - 1), w.answers[k - 1].reserved);
      }
    }
  }

  lemma OpeningBalanced(w: World, p: Plan)
    requires Fitting(w, p) && Limited(p.maxCost)
    requires PlannerFits(w.counts, p.maxCost, p.planner, p.plannerReserved)
    ensures Balanced(p.maxCost.value, Total(w, p, 0), Left(w, p, 0))
  {
    hide After, Fits;
    if w.counts(p.planner) {
      ReservedFinite(p.maxCost, p.plannerReserved);
      BalanceKept(p.maxCost.value, 0.0, p.maxCost, p.plannerReserved);
    }
  }

  lemma ReservedFinite(remaining: Usd, reserved: Usd)
    requires Fits(remaining, reserved)
    ensures reserved.Finite? && reserved.value >= 0.0
  {
  }

  /** A charged job that was submitted, and after which the run went on, found authority left and fitted it. */
  lemma ChargedFits(w: World, p: Plan, k: nat)
    requires Fitting(w, p) && k < |p.steps| && Charged(w, p, k)
    requires Blocked(w, p, k).None? && Ended(w, p, k).None?
    ensures Fits(Left(w, p, k), w.answers[k].reserved) && (Positive(Left(w, p, k)) || Left(w, p, k).NaN?)
  {
    hide Fits, Input, Left;
  }

  /** Every submitted job that is charged was told exactly the authority still unspent; the others were told no ceiling. */
  lemma CeilingsAreExact(w: World, p: Plan, subs: seq<Submission>, stop: Stop, k: nat)
    requires Ran(w, p, subs, stop) && Limited(p.maxCost) && k < |subs|
    ensures if Charged(w, p, k) then
              p.maxCost.value - Total(w, p, k) > 0.0 && subs[k].told == Ceiling(Finite(p.maxCost.value - Total(w, p, k)))
            else subs[k].told == Unlimited
  {
    hide Input, Ended, Left, Total;
    LeftIsUnspent(w, p, subs, stop, k);
    assert SubmittedAt(w, p, k, subs[k]);
  }

  ghost predicate Proper(reserved: Usd) {
    reserved.Finite? && reserved.value >= 0.0
  }

  /** The job kept to the ceiling it was told, give or take the tolerance. */
  ghost predicate Honours(s: Submission) {
    s.told.Ceiling? ==> Fits(s.told.amount, s.answer.reserved)
  }

  /**
   * Over all submitted jobs, the total stays within the authority plus one tolerance exactly when the last one kept to
   * its ceiling. A job is submitted before its reservation is known, so the last one may break the bound; no other can.
   */
  lemma TotalIsBounded(w: World, p: Plan, subs: seq<Submission>, stop: Stop)
    requires Ran(w, p, subs, stop) && Limited(p.maxCost) && subs != []
    ensures var n := |subs|;
      && Total(w, p, n - 1) <= p.maxCost.value + EPSILON
      && (forall k :: 0 <= k < n - 1 ==> Honours(subs[k]))
      && (Honours(subs[n - 1]) <==>
            (Charged(w, p, n - 1) ==> Proper(subs[n - 1].answer.reserved)) && Total(w, p, n) <= p.maxCost.value + EPSILON)
  {
    hide Input, Left, Fits, Share;
    var n := |subs|;
    LeftIsUnspent(w, p, subs, stop, n - 1);
    CeilingsAreExact(w, p, subs, stop, n - 1);
    assert SubmittedAt(w, p, n - 1, subs[n - 1]);
    BalancedBound(p.maxCost.value, Total(w, p, n - 1), Left(w, p, n - 1));
    FitsExactly(p.maxCost.value - Total(w, p, n - 1), subs[n - 1].answer.reserved);
    forall k | 0 <= k < n - 1
      ensures Honours(subs[k])
    {
      assert SubmittedAt(w, p, k, subs[k]);
      if Charged(w, p, k) {
        ChargedFits(w, p, k);
      }
    }
  }

  lemma BalancedBound(maxCost: real, spent: real, remaining: Usd)
    requires Balanced(maxCost, spent, remaining)
    ensures spent <= maxCost + EPSILON
  {
  }

  lemma FitsExactly(left: real, reserved: Usd)
    ensures Fits(Finite(left), reserved) <==> Proper(reserved) && reserved.value <= left + EPSILON
  {
  }

  /** A run that ends for any reason but a failed or overdrawn job stays within the authority plus one tolerance. */
  lemma BoundUnlessOverdrawn(w: World, p: Plan, subs: seq<Submission>, stop: Stop)
    requires Ran(w, p, subs, stop) && Limited(p.maxCost)
    requires stop != PlannerOverdrawn && stop != Failed && stop != Overdrawn
    ensures Total(w, p, |subs|) <= p.maxCost.value + EPSILON
  {
    hide Input, Left, Share, Spent;
    if subs == [] {
      LeftIsUnspent(w, p, subs, stop, 0);
    } else {
      var n := |subs| - 1;
      TotalIsBounded(w, p, subs, stop);
      assert SubmittedAt(w, p, n, subs[n]);
    }
  }

  /** The bound does fail: one job told a ceiling of one may reserve a hundred, and has been submitted by then. */
  lemma OverdraftExample()
    ensures var cfg := Config(_ => None, t => t, _ => None);
      var step := Step("a", "cloud", "", "go", false);
      var w := World(cfg, _ => true, (_, _) => true, [true], [Answer(Finite(100.0), Text("done"))]);
      var p := Plan([step], Finite(1.0), "cloud", Finite(0.0));
      var sub := Submission(JobInput(Own("go"), "", PlainText), Ceiling(Finite(1.0)), w.answers[0]);
      && Ran(w, p, [sub], Overdrawn) && Total(w, p, 1) > 1.0 + EPSILON && !Honours(sub)
  {
    var cfg := Config(_ => None, t => t, _ => None);
    var step := Step("a", "cloud", "", "go", false);
    var w := World(cfg, _ => true, (_, _) => true, [true], [Answer(Finite(100.0), Text("done"))]);
    var p := Plan([step], Finite(1.0), "cloud", Finite(0.0));
    assert Left(w, p, 0) == Finite(1.0);
    assert Total(w, p, 1) == Total(w, p, 0) + 100.0;
  }

  // ----- The hand-over -----

  /**
   * A submitted adapter step that uses the previous result follows a submitted non-adapter step that was forced to JSON
   * and shown the adapter's contract, which is not blank; its text is the strict reading of that step's result.
   */
  lemma HandOverIsExact(w: World, rules: Rules, p: Plan, subs: seq<Submission>, stop: Stop, j: nat)
    requires ValidSteps(rules, p.steps) && Ran(w, p, subs, stop)
    requires j < |subs| && p.steps[j].provider == ADAPTER && p.steps[j].usePrevious
    ensures 0 < j && p.steps[j - 1].provider != ADAPTER && w.answers[j - 1].outcome.Text?
    ensures var contract := w.cfg.contract(p.steps[j].profile);
      && contract.Some? && w.cfg.trim(contract.value) != "" && subs[j - 1].input.mode == Json
      && subs[j - 1].input.prompt ==
           ForExactRequest(Own(w.cfg.trim(p.steps[j - 1].instruction)), w.cfg.trim(contract.value))
    ensures w.cfg.exact(subs[j - 1].answer.outcome.value) == Some(subs[j].input.text) && subs[j].input.mode == Json
  {
    hide InputFor, Told, Fits;
    AdapterFollows(rules, p.steps, j);
    FeedsExactly(rules, p.steps, j - 1);
    assert SubmittedAt(w, p, j - 1, subs[j - 1]) && SubmittedAt(w, p, j, subs[j]);
    assert Ended(w, p, j - 1).None?;
    FeederInput(w.cfg, p.steps, j - 1, Previous(w, j - 1));
    ExactInput(w.cfg, p.steps, j, Previous(w, j));
  }

  lemma AdapterFollows(rules: Rules, steps: seq<Step>, j: nat)
    requires ValidSteps(rules, steps) && j < |steps| && steps[j].provider == ADAPTER && steps[j].usePrevious
    ensures 0 < j && steps[j - 1].provider != ADAPTER
  {
    assert StepOk(rules, steps, j);
  }

  /** No other step is shown a contract as its output format. */
  lemma OnlyFeedersAreShownContracts(w: World, rules: Rules, p: Plan, subs: seq<Submission>, stop: Stop, i: nat)
    requires ValidSteps(rules, p.steps) && Ran(w, p, subs, stop)
    requires i < |subs| && subs[i].input.prompt.ForExactRequest?
    ensures i + 1 < |p.steps| && p.steps[i + 1].provider == ADAPTER && p.steps[i + 1].usePrevious
  {
    hide InputFor, ValidSteps, Told, Ended;
    assert SubmittedAt(w, p, i, subs[i]);
    ShownIsFeeder(w.cfg, p.steps, i, Previous(w, i));
    FeedsExactly(rules, p.steps, i);
  }
}
