/** The aggregate cost budget of an agent run: one authority shared by the planner and every counted step. */
module AgentBudget {
  import opened Wrappers

  /** A floating-point amount, with rounding left out. */
  datatype Usd = NaN | PosInf | NegInf | Finite(value: real)

  const EPSILON: real := 0.000000001

  predicate Positive(a: Usd) {
    a.PosInf? || (a.Finite? && a.value > 0.0)
  }

  function Minus(a: Usd, b: Usd): (c: Usd) {
    if a.NaN? || b.NaN? then NaN
    else if a.Finite? && b.Finite? then Finite(a.value - b.value)
    else if a == b then NaN
    else if a.PosInf? || b.NegInf? then PosInf
    else NegInf
  }

  predicate Exceeds(a: Usd, bound: real) {
    a.PosInf? || (a.Finite? && a.value > bound)
  }

  /** What a job may be told before it is submitted. */
  datatype Permission = Refused | Unlimited | Ceiling(amount: Usd)

  class AgentRunBudget {
    /** Whether a provider's cost counts: remote, with an upper bound. */
    const counts: string -> bool
    var remaining: Usd
    const enforced: bool

    constructor (counts: string -> bool, maxCost: Usd)
      ensures this.counts == counts && remaining == maxCost && enforced == Positive(maxCost)
    {
      this.counts := counts;
      remaining := maxCost;
      enforced := Positive(maxCost);
    }

    method Authorize(provider: string) returns (p: Permission)
      ensures p == if !enforced || !counts(provider) then Unlimited
                   else if Positive(remaining) || remaining.NaN? then Ceiling(remaining)
                   else Refused
    {
      if !enforced {
        return Unlimited;
      }
      if !counts(provider) {
        return Unlimited;
      }
      if remaining.NegInf? || (remaining.Finite? && remaining.value <= 0.0) {
        return Refused;
      }
      p := Ceiling(remaining);
    }

    method Consume(provider: string, reserved: Usd) returns (ok: bool)
      modifies this
      ensures !enforced || !counts(provider) ==> ok && remaining == old(remaining)
      ensures enforced && counts(provider) ==> ok == Fits(old(remaining), reserved)
      ensures enforced && counts(provider) ==> remaining == if ok then After(old(remaining), reserved) else old(remaining)
    {
      if !enforced {
        return true;
      }
      if !counts(provider) {
        return true;
      }
      ok := ConsumeReservation(reserved);
    }

    method ConsumeReservation(reserved: Usd) returns (ok: bool)
      modifies this
      ensures ok == Fits(old(remaining), reserved)
      ensures remaining == if ok then After(old(remaining), reserved) else old(remaining)
    {
      if reserved.NaN? || reserved.PosInf? || reserved.NegInf? || reserved.value < 0.0 {
        return false;
      }
      if Exceeds(Minus(reserved, remaining), EPSILON) {
        return false;
      }
      remaining := Minus(remaining, reserved);
      if remaining.Finite? && remaining.value < 0.0 && remaining.value >= -EPSILON {
        remaining := Finite(0.0);
      }
      ok := true;
    }
  }

  /** A reservation is a finite amount, not negative, and exceeds what remains by no more than the tolerance. */
  predicate Fits(remaining: Usd, reserved: Usd) {
    reserved.Finite? && reserved.value >= 0.0 && !Exceeds(Minus(reserved, remaining), EPSILON)
  }

  function After(remaining: Usd, reserved: Usd): (r: Usd) {
    var r := Minus(remaining, reserved);
    if r.Finite? && -EPSILON <= r.value < 0.0 then Finite(0.0) else r
  }

  // ----- The authority over a run -----

  /** While authority is left it is exactly what is unspent; once it runs out, the overdraft is within one tolerance. */
  ghost predicate Balanced(maxCost: real, spent: real, remaining: Usd) {
    remaining.Finite? && remaining.value >= 0.0 &&
    (if remaining.value > 0.0 then remaining.value == maxCost - spent else maxCost <= spent <= maxCost + EPSILON)
  }

  lemma BalanceKept(maxCost: real, spent: real, remaining: Usd, reserved: Usd)
    requires Balanced(maxCost, spent, remaining) && Positive(remaining) && Fits(remaining, reserved)
    ensures Balanced(maxCost, spent + reserved.value, After(remaining, reserved))
  {
  }

  /** What the planner took from the authority: nothing when its cost does not count. */
  function Share(counts: string -> bool, planner: string, reserved: Usd): (share: real) {
    if counts(planner) && reserved.Finite? then reserved.value else 0.0
  }

  ghost predicate Limited(maxCost: Usd) {
    maxCost.Finite? && maxCost.value > 0.0
  }

  /** The authority left once the planner took its share. */
  function Opening(counts: string -> bool, maxCost: Usd, planner: string, reserved: Usd): (left: Usd) {
    if Positive(maxCost) && counts(planner) then After(maxCost, reserved) else maxCost
  }

  predicate PlannerFits(counts: string -> bool, maxCost: Usd, planner: string, reserved: Usd) {
    Positive(maxCost) && counts(planner) ==> Fits(maxCost, reserved)
  }

  method NewRunBudget(counts: string -> bool, maxCost: Usd, planner: string, reserved: Usd)
    returns (budget: AgentRunBudget, planned: bool)
    ensures fresh(budget) && budget.counts == counts && budget.enforced == Positive(maxCost)
    ensures planned <==> PlannerFits(counts, maxCost, planner, reserved)
    ensures planned ==> budget.remaining == Opening(counts, maxCost, planner, reserved)
    ensures planned && Limited(maxCost) ==> Balanced(maxCost.value, Share(counts, planner, reserved), budget.remaining)
  {
    budget := new AgentRunBudget(counts, maxCost);
    planned := true;
    if Positive(maxCost) && counts(planner) {
      planned := budget.ConsumeReservation(reserved);
      if planned && Limited(maxCost) {
        BalanceKept(maxCost.value, 0.0, maxCost, reserved);
      }
    }
  }

  /** The refusal is what bounds the total: without it, reservations within the tolerance add up past any bound. */
  lemma {:induction false} ToleranceAloneAddsUp(n: nat, remaining: Usd)
    requires remaining == Finite(0.0)
    ensures Fits(remaining, Finite(EPSILON)) && After(remaining, Finite(EPSILON)) == remaining
    ensures Drain(remaining, n) == remaining
  {
    if n > 0 {
      ToleranceAloneAddsUp(n - 1, remaining);
    }
  }

  /** What remains after `n` reservations of one tolerance each. */
  function Drain(remaining: Usd, n: nat): Usd
    decreases n
  {
    if n == 0 then remaining else Drain(After(remaining, Finite(EPSILON)), n - 1)
  }
}
