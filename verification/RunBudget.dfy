/** A run's budget: what the driver computes for the next provider call, and the store's reserve,
    settle, fail, release and recover transactions over it. */
module RunBudget {
  import opened Basics
  import opened ProviderCost

  const PROVIDER_OUTPUT_TOKENS: nat := 512
  const PROVIDER_OUTPUT_BYTES_RESERVATION: nat := 64 * 1024
  const PROVIDER_COST_RESERVATION: nat := 1_000

  datatype Amounts = Amounts(calls: nat, input: nat, output: nat, cost: nat, bytes: nat)

  const NOTHING := Amounts(0, 0, 0, 0, 0)

  function Plus(a: Amounts, b: Amounts): Amounts {
    Amounts(a.calls + b.calls, a.input + b.input, a.output + b.output, a.cost + b.cost, a.bytes + b.bytes)
  }

  predicate Within(a: Amounts, b: Amounts) {
    a.calls <= b.calls && a.input <= b.input && a.output <= b.output && a.cost <= b.cost && a.bytes <= b.bytes
  }

  function Minus(a: Amounts, b: Amounts): Amounts
    requires Within(b, a)
  {
    Amounts(a.calls - b.calls, a.input - b.input, a.output - b.output, a.cost - b.cost, a.bytes - b.bytes)
  }

  /** One attempt's reservation; settled reservations stay on record with nothing reserved. */
  datatype Reservation = Reservation(amounts: Amounts, active: bool)

  datatype Budget = Budget(limits: Amounts, maximumRetries: nat, used: Amounts, reserved: Amounts, retries: nat,
                           cancelled: bool, attempts: seq<Reservation>)

  function Fresh(limits: Amounts, maximumRetries: nat): Budget {
    Budget(limits, maximumRetries, NOTHING, NOTHING, 0, false, [])
  }

  // ----- Store transactions: each is refused or applied whole --------------------------------------

  /** `fenced`: the caller still holds the run's lease. `inTime`: the run's deadline is ahead. */
  datatype Op =
    | RequestCancellation
    | Reserve(amounts: Amounts, fenced: bool, inTime: bool)
    | Complete(attempt: nat, usage: Amounts, fenced: bool)
    | Fail(attempt: nat, retryable: bool, beforeDeadline: bool, fenced: bool)
    | Release(attempt: nat, fenced: bool)
    | Recover(attempt: nat, dispatched: bool)
    | Observe(bytes: nat)

  predicate CanReserve(b: Budget, amounts: Amounts) {
    !b.cancelled && amounts.calls == 1 && Within(Plus(Plus(b.used, b.reserved), amounts), b.limits)
  }

  predicate Active(b: Budget, attempt: nat) {
    attempt < |b.attempts| && b.attempts[attempt].active
  }

  /** The guard every settling update carries: the reserved columns can be reduced. */
  predicate Reducible(b: Budget, attempt: nat) {
    Active(b, attempt) && Within(b.attempts[attempt].amounts, b.reserved)
  }

  function Settle(b: Budget, attempt: nat, charge: Amounts, retries: nat): Budget
    requires Reducible(b, attempt)
  {
    var amounts := b.attempts[attempt].amounts;
    b.(used := Plus(b.used, charge), reserved := Minus(b.reserved, amounts), retries := b.retries + retries,
       attempts := b.attempts[attempt := Reservation(amounts, false)])
  }

  /** The transaction's outcome: `None` when a guard refuses it. */
  function Apply(b: Budget, op: Op): Option<Budget> {
    match op
    case RequestCancellation => Some(b.(cancelled := true))
    case Reserve(amounts, fenced, inTime) =>
      if fenced && inTime && CanReserve(b, amounts) then
        Some(b.(reserved := Plus(b.reserved, amounts), attempts := b.attempts + [Reservation(amounts, true)]))
      else None
    case Complete(attempt, usage, fenced) =>
      if && fenced && !b.cancelled && Reducible(b, attempt) && usage.calls == 1 && Within(usage, b.attempts[attempt].amounts)
         && Within(Plus(b.used, usage.(calls := 0)), b.limits) then
        Some(Settle(b, attempt, usage, 0))
      else None
    case Fail(attempt, retryable, beforeDeadline, fenced) =>
      if fenced && !b.cancelled && Reducible(b, attempt) then
        var retry := retryable && b.retries < b.maximumRetries && b.used.calls + 1 < b.limits.calls && beforeDeadline;
        Some(Settle(b, attempt, NOTHING.(calls := 1), if retry then 1 else 0))
      else None
    case Release(attempt, fenced) =>
      if fenced && Reducible(b, attempt) then Some(Settle(b, attempt, NOTHING, 0)) else None
    case Recover(attempt, dispatched) =>
      if Reducible(b, attempt) then
        if dispatched then
          Some(Settle(b, attempt, b.attempts[attempt].amounts, if b.retries < b.maximumRetries then 1 else 0))
        else
          Some(Settle(b, attempt, NOTHING, 0))
      else None
    case Observe(bytes) =>
      if Within(Plus(Plus(b.used, b.reserved), NOTHING.(bytes := bytes)), b.limits) then
        Some(b.(used := Plus(b.used, NOTHING.(bytes := bytes))))
      else None
  }

  function Run(b: Budget, ops: seq<Op>): Budget {
    if ops == [] then b else
    var before := Run(b, ops[..|ops| - 1]);
    var after := Apply(before, ops[|ops| - 1]);
    if after.Some? then after.value else before
  }

  // ----- The reservation discipline -----------------------------------------------------------------

  /** What the active reservations come to. */
  function Outstanding(attempts: seq<Reservation>): Amounts {
    if attempts == [] then NOTHING else
    var last := attempts[|attempts| - 1];
    Plus(Outstanding(attempts[..|attempts| - 1]), if last.active then last.amounts else NOTHING)
  }

  /** In every column what is used and reserved together is within the limit, and what is reserved is
      exactly the sum of the open reservations. */
  ghost predicate Balanced(b: Budget) {
    && b.reserved == Outstanding(b.attempts)
    && Within(Plus(b.used, b.reserved), b.limits)
    && b.retries <= b.maximumRetries
    && forall i :: 0 <= i < |b.attempts| ==> b.attempts[i].amounts.calls == 1
  }

  lemma {:induction false} OutstandingSettle(attempts: seq<Reservation>, i: nat)
    requires i < |attempts| && attempts[i].active
    ensures Within(attempts[i].amounts, Outstanding(attempts))
    ensures Outstanding(attempts[i := Reservation(attempts[i].amounts, false)])
         == Minus(Outstanding(attempts), attempts[i].amounts)
  {
    hide Outstanding;
    var n := |attempts| - 1;
    var settled := attempts[i := Reservation(attempts[i].amounts, false)];
    assert attempts == attempts[..n] + [attempts[n]] && settled == settled[..n] + [settled[n]];
    OutstandingSnoc(attempts[..n], attempts[n]);
    OutstandingSnoc(settled[..n], settled[n]);
    if i < n {
      OutstandingSettle(attempts[..n], i);
      assert settled[..n] == attempts[..n][i := Reservation(attempts[i].amounts, false)];
    } else {
      assert settled[..n] == attempts[..n];
    }
  }

  lemma OutstandingSnoc(attempts: seq<Reservation>, r: Reservation)
    ensures Outstanding(attempts + [r]) == Plus(Outstanding(attempts), if r.active then r.amounts else NOTHING)
  {
  }

  lemma ApplyBalanced(b: Budget, op: Op)
    requires Balanced(b) && Apply(b, op).Some?
    ensures Balanced(Apply(b, op).value) && Apply(b, op).value.limits == b.limits
  {
    hide Outstanding;
    match op {
      case RequestCancellation =>
      case Reserve(amounts, _, _) => OutstandingSnoc(b.attempts, Reservation(amounts, true));
      case Complete(attempt, _, _) => OutstandingSettle(b.attempts, attempt);
      case Fail(attempt, _, _, _) => OutstandingSettle(b.attempts, attempt);
      case Release(attempt, _) => OutstandingSettle(b.attempts, attempt);
      case Recover(attempt, _) => OutstandingSettle(b.attempts, attempt);
      case Observe(_) =>
    }
  }

  /** After any sequence of transactions, in every column what is used and reserved together stays
      within the limit, and what is reserved is exactly the sum of the open reservations. */
  lemma {:induction false} BudgetNeverExceeded(limits: Amounts, maximumRetries: nat, ops: seq<Op>)
    ensures var b := Run(Fresh(limits, maximumRetries), ops);
            Balanced(b) && b.limits == limits
  {
    hide Apply, Outstanding, Balanced;
    if ops == [] {
      FreshBalanced(limits, maximumRetries);
    } else {
      BudgetNeverExceeded(limits, maximumRetries, ops[..|ops| - 1]);
      var before := Run(Fresh(limits, maximumRetries), ops[..|ops| - 1]);
      if Apply(before, ops[|ops| - 1]).Some? {
        ApplyBalanced(before, ops[|ops| - 1]);
      }
    }
  }

  lemma FreshBalanced(limits: Amounts, maximumRetries: nat)
    ensures Balanced(Fresh(limits, maximumRetries))
  {
  }

  /** An open reservation can always be closed by recovery. While the lease is held it can be released, and
      before a cancellation failed; it can be completed exactly when moreover the usage is within it. */
  lemma OpenReservationCloses(b: Budget, attempt: nat, op: Op)
    requires Balanced(b) && Active(b, attempt)
    requires op.Complete? || op.Fail? || op.Release? || op.Recover?
    requires op.attempt == attempt
    ensures Apply(b, op).Some? <==>
            match op
            case Complete(_, usage, fenced) =>
              fenced && !b.cancelled && usage.calls == 1 && Within(usage, b.attempts[attempt].amounts)
            case Fail(_, _, _, fenced) => fenced && !b.cancelled
            case Release(_, fenced) => fenced
            case _ => true
    ensures Apply(b, op).Some? ==> !Active(Apply(b, op).value, attempt)
  {
    hide Outstanding;
    OutstandingSettle(b.attempts, attempt);
  }

  // ----- What the driver reserves ---------------------------------------------------------------------

  datatype Capabilities = Capabilities(contextTokens: U64, inputOverhead: U64, maximumOutput: U64, pricing: Pricing)

  datatype Exhausted = InputTokens | OutputTokens | Overflow | Cost | OutputBytes

  function Remaining(limit: nat, used: nat, reserved: nat): nat {
    if limit < used then 0 else if limit - used < reserved then 0 else limit - used - reserved
  }

  function TokenBudget(b: Budget, c: Capabilities): nat {
    var remaining := Remaining(b.limits.input, b.used.input, b.reserved.input);
    Min(if remaining < c.inputOverhead then 0 else remaining - c.inputOverhead,
        if c.contextTokens < c.inputOverhead then 0 else c.contextTokens - c.inputOverhead)
  }

  function OutputRequest(b: Budget, c: Capabilities, fixture: bool): nat {
    Min(if fixture then PROVIDER_OUTPUT_TOKENS else Remaining(b.limits.output, b.used.output, b.reserved.output),
        c.maximumOutput)
  }

  /** The reservation for the next call; `estimate` is what the compiled context was measured at. */
  function Plan(b: Budget, c: Capabilities, estimate: U64, fixture: bool): Result<Amounts, Exhausted>
    requires Within(b.limits, Amounts(U64_MAX, U64_MAX, U64_MAX, U64_MAX, U64_MAX))
  {
    if TokenBudget(b, c) == 0 then Err(InputTokens) else
    var output := OutputRequest(b, c, fixture);
    if output == 0 then Err(OutputTokens) else
    var input := CheckedAdd(estimate, c.inputOverhead);
    if input == None then Err(Overflow) else
    var remainingCost := Remaining(b.limits.cost, b.used.cost, b.reserved.cost);
    var cost := if fixture then Min(PROVIDER_COST_RESERVATION, remainingCost)
                else MaximumProviderCost(input.value, output, c.pricing);
    if cost > remainingCost || (fixture && cost == 0) then Err(Cost) else
    var bytes := Min(PROVIDER_OUTPUT_BYTES_RESERVATION, Remaining(b.limits.bytes, b.used.bytes, b.reserved.bytes));
    if bytes == 0 then Err(OutputBytes) else
    Ok(Amounts(1, input.value, output, cost, bytes))
  }

  /** A plan made on the budget as it stands is accepted by the store exactly when the run is not
      cancelled, a model call is left and, for the fixture provider, its fixed output request still fits. The checked addition
      never overflows. */
  lemma PlanAcceptedIff(b: Budget, c: Capabilities, estimate: U64, fixture: bool)
    requires Within(b.limits, Amounts(U64_MAX, U64_MAX, U64_MAX, U64_MAX, U64_MAX))
    requires Balanced(b) && estimate <= TokenBudget(b, c)
    ensures Plan(b, c, estimate, fixture) != Err(Overflow)
    ensures Plan(b, c, estimate, fixture).Ok? ==>
              (CanReserve(b, Plan(b, c, estimate, fixture).value) <==>
               && !b.cancelled
               && b.used.calls + b.reserved.calls < b.limits.calls
               && (fixture ==> Min(PROVIDER_OUTPUT_TOKENS, c.maximumOutput)
                               <= Remaining(b.limits.output, b.used.output, b.reserved.output)))
  {
  }

  /** The fixture provider's request ignores the output tokens that remain. */
  lemma FixtureOutputOverrun()
    ensures var b := Fresh(Amounts(1, 100, 10, 2_000, 1_000), 0);
            var c := Capabilities(100, 0, 512, Pricing(0, 0));
            && Plan(b, c, 1, true).Ok?
            && !CanReserve(b, Plan(b, c, 1, true).value)
  {
  }

  /** The whole path of a metered call: what the driver planned, the store reserved and the provider
      reported within its token bounds settles while the lease is held, for the price the adapter
      charges. After a cancellation it can only be recovered, charged in full. */
  lemma PlannedCallSettles(b: Budget, c: Capabilities, estimate: U64, input: U64, output: U64, bytes: nat)
    requires Within(b.limits, Amounts(U64_MAX, U64_MAX, U64_MAX, U64_MAX, U64_MAX))
    requires Balanced(b) && estimate <= TokenBudget(b, c)
    requires Plan(b, c, estimate, false).Ok?
    requires var plan := Plan(b, c, estimate, false).value;
             && CanReserve(b, plan)
             && input <= plan.input && output <= plan.output && bytes <= plan.bytes
    ensures var plan := Plan(b, c, estimate, false).value;
            var reserved := Apply(b, Reserve(plan, true, true)).value;
            var usage := Amounts(1, input, output, TokenCost(input, output, c.pricing), bytes);
            var settled := Apply(reserved, Complete(|b.attempts|, usage, true));
            var cancelled := Apply(reserved, RequestCancellation).value;
            var recovered := Apply(cancelled, Recover(|b.attempts|, true));
            && settled.Some? && Balanced(settled.value)
            && settled.value.used == Plus(b.used, usage) && settled.value.reserved == b.reserved
            && Apply(cancelled, Complete(|b.attempts|, usage, true)) == None
            && recovered.Some? && recovered.value.used == Plus(b.used, plan) && recovered.value.reserved == b.reserved
  {
    hide Outstanding, TokenCost, MaximumProviderCost, Plan, TokenBudget;
    var plan := Plan(b, c, estimate, false).value;
    PlanCost(b, c, estimate);
    var reserved := Apply(b, Reserve(plan, true, true)).value;
    ApplyBalanced(b, Reserve(plan, true, true));
    CostWithinReservation(input, output, plan.input, plan.output, c.pricing);
    var usage := Amounts(1, input, output, TokenCost(input, output, c.pricing), bytes);
    var op := Complete(|b.attempts|, usage, true);
    OpenReservationCloses(reserved, |b.attempts|, op);
    ApplyBalanced(reserved, op);
    var cancelled := Apply(reserved, RequestCancellation).value;
    ApplyBalanced(reserved, RequestCancellation);
    OpenReservationCloses(cancelled, |b.attempts|, Recover(|b.attempts|, true));
  }

  lemma PlanCost(b: Budget, c: Capabilities, estimate: U64)
    requires Within(b.limits, Amounts(U64_MAX, U64_MAX, U64_MAX, U64_MAX, U64_MAX))
    requires Plan(b, c, estimate, false).Ok?
    ensures var plan := Plan(b, c, estimate, false).value;
            plan.input <= U64_MAX && plan.output <= U64_MAX && plan.cost == MaximumProviderCost(plan.input, plan.output, c.pricing)
  {
    hide MaximumProviderCost;
  }
}
