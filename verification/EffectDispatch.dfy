/** Dispatch of one governed effect: the durable ledger, the leases that fence it, any number of
    drivers working on it at once, their crashes (a driver that takes no further step), recovery of
    an expired lease, and operator reconciliation. Every order of steps is a run of this model. */
module EffectDispatch {
  import opened Basics

  // ----- Recovery policy -------------------------------------------------------------------------

  datatype Idempotency = Pure | Idempotent | Keyed | NonIdempotent
  datatype Recovery = Retry | Reconcile | Compensate | NeverRetry
  datatype Policy = Policy(idempotency: Idempotency, recovery: Recovery)
  datatype Boundary = AtPrepared | AtRunning | AtUnknown
  datatype Disposition = ResumePrepared | RetryNow | RetryWithSameKey | RequiresReconciliation
                       | RequiresCompensation | TerminallyFailed

  /** The classification the store's transactions make. */
  function ClassifyRecovery(boundary: Boundary, policy: Policy): Disposition {
    if boundary == AtPrepared then ResumePrepared
    else if policy.recovery == Compensate then RequiresCompensation
    else if policy.recovery == NeverRetry then TerminallyFailed
    else if boundary == AtUnknown then RequiresReconciliation
    else if policy.recovery == Retry && policy.idempotency == Keyed then RetryWithSameKey
    else if policy.recovery == Retry && policy.idempotency != NonIdempotent then RetryNow
    else RequiresReconciliation
  }

  /** The classification the recovery-candidate view makes. */
  function CandidateDisposition(boundary: Boundary, policy: Policy): Disposition {
    match (boundary, policy.recovery)
    case (AtPrepared, _) => ResumePrepared
    case (AtUnknown, Compensate) => RequiresCompensation
    case (AtUnknown, NeverRetry) => TerminallyFailed
    case (AtUnknown, _) => RequiresReconciliation
    case (AtRunning, Compensate) => RequiresCompensation
    case (AtRunning, NeverRetry) => TerminallyFailed
    case (AtRunning, Retry) =>
      if policy.idempotency == Keyed then RetryWithSameKey
      else if policy.idempotency == NonIdempotent then RequiresReconciliation
      else RetryNow
    case (AtRunning, Reconcile) => RequiresReconciliation
  }

  predicate Retries(d: Disposition) {
    d == RetryNow || d == RetryWithSameKey
  }

  /** An interrupted dispatch may be tried again: only where repeating it is harmless and allowed. */
  predicate Retryable(policy: Policy) {
    policy.recovery == Retry && policy.idempotency != NonIdempotent
  }

  // ----- State -------------------------------------------------------------------------------------

  datatype Status = Authorized | Dispatching | Denied | Succeeded | Failed | Compensated | OutcomeUnknown
  datatype Outcome = DidSucceed | DidFail | Unproven
  datatype AttemptState = Prepared | Running | Finished(outcome: Outcome) | InterruptedUndispatched | InterruptedRetryable

  /** `owner` is the driver that generated the attempt's identity. */
  datatype Attempt = Attempt(owner: nat, token: nat, state: AttemptState)

  datatype Event =
    | AttemptPrepared(attempt: nat)
    | Dispatched(attempt: nat, revision: nat)
    | Executed(attempt: nat)
    | Recorded(attempt: nat, outcome: Outcome)
    | RetryAuthorized(attempt: nat)
    | PreparationInterrupted(attempt: nat)
    | DispatchInterrupted(attempt: nat)
    | Reconciled(status: Status)
    | Observed(status: Status, revision: nat)
    | Parked

  /** How far a driver has come. */
  datatype Pc =
    | Start
    | Viewed(revision: nat)
    | HasPrepared(attempt: nat)
    | PreparedViewed(attempt: nat, revision: nat)
    | Marked(attempt: nat)
    | Ready(attempt: nat, revision: nat)
    | Ran(attempt: nat, revision: nat, outcome: Outcome)
    | Observing
    | Parking
    | Stopped

  datatype Driver = Driver(token: nat, pc: Pc)
  datatype RunStatus = Queued | RunRunning | Waiting | RunFinished

  /** `lease` is the fencing token of the active lease. */
  datatype State = State(policy: Policy, status: Status, revision: nat, attempts: seq<Attempt>, run: RunStatus,
                         token: nat, lease: Option<nat>, drivers: seq<Driver>, journal: seq<Event>)

  function Initial(policy: Policy, denied: bool, revision: nat): State {
    State(policy, if denied then Denied else Authorized, revision, [], Waiting, 1, None, [], [])
  }

  predicate Terminal(status: Status) {
    status == Denied || status == Succeeded || status == Failed || status == Compensated
  }

  function StatusOf(outcome: Outcome): Status {
    match outcome
    case DidSucceed => Succeeded
    case DidFail => Failed
    case Unproven => OutcomeUnknown
  }

  predicate Unsettled(state: AttemptState) {
    state == Prepared || state == Running || state == Finished(Unproven)
  }

  predicate HasUnsettled(attempts: seq<Attempt>) {
    exists i :: 0 <= i < |attempts| && Unsettled(attempts[i].state)
  }

  predicate FenceActive(s: State, token: nat) {
    s.lease == Some(token) && s.run == RunRunning && s.token == token
  }

  predicate HasObserved(journal: seq<Event>) {
    exists k :: 0 <= k < |journal| && journal[k].Observed?
  }

  // ----- Store transactions --------------------------------------------------------------------------

  function SetAttempt(s: State, a: nat, state: AttemptState, status: Status, e: Event): State
    requires a < |s.attempts|
  {
    s.(attempts := s.attempts[a := s.attempts[a].(state := state)], status := status,
       revision := s.revision + 1, journal := s.journal + [e])
  }

  function PrepareAttempt(s: State, token: nat, owner: nat, expected: nat): Option<State> {
    if FenceActive(s, token) && s.status == Authorized && s.revision == expected && !HasUnsettled(s.attempts) then
      Some(s.(attempts := s.attempts + [Attempt(owner, token, Prepared)], revision := s.revision + 1,
              journal := s.journal + [AttemptPrepared(|s.attempts|)]))
    else
      None
  }

  function MarkRunning(s: State, token: nat, a: nat, expected: nat): Option<State> {
    if && FenceActive(s, token) && s.status == Authorized && s.revision == expected
       && a < |s.attempts| && s.attempts[a].state == Prepared && s.attempts[a].token == token then
      Some(SetAttempt(s, a, Running, Dispatching, Dispatched(a, s.revision + 1)))
    else
      None
  }

  function RecordOutcome(s: State, token: nat, a: nat, expected: nat, outcome: Outcome): Option<State> {
    if && FenceActive(s, token) && s.status == Dispatching && s.revision == expected
       && a < |s.attempts| && s.attempts[a].state == Running && s.attempts[a].token == token then
      Some(SetAttempt(s, a, Finished(outcome), StatusOf(outcome), Recorded(a, outcome)))
    else
      None
  }

  function RecordObservation(s: State, token: nat): Option<State> {
    if FenceActive(s, token) && Terminal(s.status) && !HasObserved(s.journal) then
      Some(s.(journal := s.journal + [Observed(s.status, s.revision)]))
    else
      None
  }

  function ParkRun(s: State, token: nat): Option<State> {
    if FenceActive(s, token) && s.status == OutcomeUnknown then
      Some(s.(run := Waiting, lease := None, token := s.token + 1, journal := s.journal + [Parked]))
    else
      None
  }

  predicate LeaseInactive(s: State, a: nat)
    requires a < |s.attempts|
  {
    s.lease != Some(s.attempts[a].token)
  }

  /** An interrupted dispatch that must not be repeated becomes an unknown outcome. */
  function RecoverInterrupted(s: State, a: nat): Option<State> {
    if && a < |s.attempts| && s.attempts[a].state == Running && s.status == Dispatching && LeaseInactive(s, a)
       && !Retries(ClassifyRecovery(AtRunning, s.policy)) then
      Some(SetAttempt(s, a, Finished(Unproven), OutcomeUnknown, DispatchInterrupted(a)))
    else
      None
  }

  function RecoverRetryable(s: State, a: nat): Option<State> {
    if && a < |s.attempts| && s.attempts[a].state == Running && s.status == Dispatching && LeaseInactive(s, a)
       && Retries(ClassifyRecovery(AtRunning, s.policy)) then
      Some(SetAttempt(s, a, InterruptedRetryable, Authorized, RetryAuthorized(a)))
    else
      None
  }

  function RecoverUndispatched(s: State, a: nat): Option<State> {
    if a < |s.attempts| && s.attempts[a].state == Prepared && s.status == Authorized && LeaseInactive(s, a) then
      Some(SetAttempt(s, a, InterruptedUndispatched, Authorized, PreparationInterrupted(a)))
    else
      None
  }

  /** The boundary at which recovery finds an attempt, if it is a recovery candidate. */
  function CandidateBoundary(status: Status, state: AttemptState): Option<Boundary> {
    if state == Prepared && status == Authorized then Some(AtPrepared)
    else if state == Running && status == Dispatching then Some(AtRunning)
    else if state == Finished(Unproven) && status == OutcomeUnknown then Some(AtUnknown)
    else None
  }

  function Candidates(s: State, token: nat, n: nat): seq<nat>
    requires n <= |s.attempts|
  {
    if n == 0 then [] else
    var found := s.attempts[n - 1].token == token && CandidateBoundary(s.status, s.attempts[n - 1].state).Some?;
    Candidates(s, token, n - 1) + if found then [n - 1] else []
  }

  /** Settle the one attempt the expired lease left behind. */
  function SettleCandidate(s: State, a: nat): Option<(State, RunStatus)>
    requires a < |s.attempts|
  {
    match CandidateBoundary(s.status, s.attempts[a].state)
    case None => None
    case Some(boundary) =>
      var disposition := CandidateDisposition(boundary, s.policy);
      if boundary == AtPrepared && disposition == ResumePrepared then
        match RecoverUndispatched(s, a) case None => None case Some(t) => Some((t, Queued))
      else if boundary == AtRunning && Retries(disposition) then
        match RecoverRetryable(s, a) case None => None case Some(t) => Some((t, Queued))
      else if boundary != AtPrepared && !Retries(disposition) && disposition != ResumePrepared then
        if boundary == AtUnknown then Some((s, Waiting))
        else match RecoverInterrupted(s, a) case None => None case Some(t) => Some((t, Waiting))
      else
        None
  }

  /** Recovery of the active lease once it has expired. `None` is an invariant violation. */
  function RecoverLease(s: State): Option<State>
    requires s.lease.Some?
  {
    var token := s.lease.value;
    var candidates := Candidates(s, token, |s.attempts|);
    CandidatesInRange(s, token, |s.attempts|);
    var expired := s.(lease := None);
    var settled: Option<(State, RunStatus)> :=
      if |candidates| == 0 then Some((expired, Queued))
      else if |candidates| == 1 then SettleCandidate(expired, candidates[0])
      else None;
    match settled
    case None => None
    case Some((t, run)) =>
      if s.run == RunRunning && s.token == token then Some(t.(run := run, token := token + 1)) else None
  }

  lemma CandidatesInRange(s: State, token: nat, n: nat)
    requires n <= |s.attempts|
    ensures forall i :: 0 <= i < |Candidates(s, token, n)| ==> Candidates(s, token, n)[i] < n
  {
  }

  function ReconcileOutcome(s: State, status: Status): Option<State> {
    if s.status == OutcomeUnknown && (status == Succeeded || status == Failed || status == Compensated) then
      Some(s.(status := status, revision := s.revision + 1, journal := s.journal + [Reconciled(status)]))
    else
      None
  }

  // ----- Steps -----------------------------------------------------------------------------------------

  datatype Step =
    | Claim
    | Release
    | FinishRun
    | Expire
    | RecoverEffect(attempt: nat)
    | ReconcileBy(status: Status)
    | Resume
    | Enter(token: nat)
    | Drive(driver: nat, outcome: Outcome)

  function SetPc(s: State, d: nat, pc: Pc): State
    requires d < |s.drivers|
  {
    s.(drivers := s.drivers[d := s.drivers[d].(pc := pc)])
  }

  function Moved(s: State, next: Option<State>, d: nat, pc: Pc): State
    requires d < |s.drivers| && (next.Some? ==> d < |next.value.drivers|)
  {
    if next.Some? then SetPc(next.value, d, pc) else SetPc(s, d, Stopped)
  }

  /** A driver's next step; the executor's answer is given. A refused transaction ends the driver. */
  function DriveStep(s: State, d: nat, outcome: Outcome): State
    requires d < |s.drivers|
  {
    var token := s.drivers[d].token;
    match s.drivers[d].pc
    case Start =>
      if s.status == Authorized then SetPc(s, d, Viewed(s.revision))
      else if Terminal(s.status) then SetPc(s, d, Observing)
      else if s.status == OutcomeUnknown then SetPc(s, d, Parking)
      else SetPc(s, d, Stopped)
    case Viewed(revision) => Moved(s, PrepareAttempt(s, token, d, revision), d, HasPrepared(|s.attempts|))
    case HasPrepared(a) => SetPc(s, d, PreparedViewed(a, s.revision))
    case PreparedViewed(a, revision) => Moved(s, MarkRunning(s, token, a, revision), d, Marked(a))
    case Marked(a) => SetPc(s, d, Ready(a, s.revision))
    case Ready(a, revision) => SetPc(s.(journal := s.journal + [Executed(a)]), d, Ran(a, revision, outcome))
    case Ran(a, revision, result) =>
      Moved(s, RecordOutcome(s, token, a, revision, result), d, if result == Unproven then Parking else Observing)
    case Observing => Moved(s, RecordObservation(s, token), d, Stopped)
    case Parking => Moved(s, ParkRun(s, token), d, Stopped)
    case Stopped => s
  }

  function Or(s: State, next: Option<State>): State {
    if next.Some? then next.value else s
  }

  function Next(s: State, step: Step): State {
    match step
    case Claim =>
      if s.run == Queued && s.lease == None then
        s.(run := RunRunning, token := s.token + 1, lease := Some(s.token + 1))
      else s
    case Release =>
      if s.lease.Some? && FenceActive(s, s.lease.value) then
        s.(run := Queued, lease := None, token := s.token + 1)
      else s
    case FinishRun =>
      if s.lease.Some? && FenceActive(s, s.lease.value) then
        s.(run := RunFinished, lease := None, token := s.token + 1)
      else s
    case Expire => if s.lease.Some? then Or(s, RecoverLease(s)) else s
    case RecoverEffect(a) => Or(s, RecoverInterrupted(s, a))
    case ReconcileBy(status) => Or(s, ReconcileOutcome(s, status))
    case Resume =>
      if s.run == Waiting && s.lease == None && !HasObserved(s.journal) && (Terminal(s.status) || s.status == Authorized) then
        s.(run := Queued)
      else s
    case Enter(token) => s.(drivers := s.drivers + [Driver(token, Start)])
    case Drive(d, outcome) => if d < |s.drivers| then DriveStep(s, d, outcome) else s
  }

  function Run(s: State, steps: seq<Step>): State {
    if steps == [] then s else Next(Run(s, steps[..|steps| - 1]), steps[|steps| - 1])
  }

  // ----- What the journal must say -----------------------------------------------------------------------

  function DispatchedSet(journal: seq<Event>): set<nat> {
    set k | 0 <= k < |journal| && journal[k].Dispatched? :: journal[k].attempt
  }

  function ExecutedSet(journal: seq<Event>): set<nat> {
    set k | 0 <= k < |journal| && journal[k].Executed? :: journal[k].attempt
  }

  function Dispatches(journal: seq<Event>): nat {
    if journal == [] then 0
    else Dispatches(journal[..|journal| - 1]) + if journal[|journal| - 1].Dispatched? then 1 else 0
  }

  function Executions(journal: seq<Event>): nat {
    if journal == [] then 0
    else Executions(journal[..|journal| - 1]) + if journal[|journal| - 1].Executed? then 1 else 0
  }

  function RetryCount(journal: seq<Event>): nat {
    if journal == [] then 0
    else RetryCount(journal[..|journal| - 1]) + if journal[|journal| - 1].RetryAuthorized? then 1 else 0
  }

  function LastDispatchRevision(journal: seq<Event>): nat {
    if journal == [] then 0
    else if journal[|journal| - 1].Dispatched? then journal[|journal| - 1].revision
    else LastDispatchRevision(journal[..|journal| - 1])
  }

  /** What had to have happened before an event could be written. */
  ghost predicate EventAllowed(policy: Policy, before: seq<Event>, e: Event) {
    match e
    case AttemptPrepared(_) => !HasObserved(before)
    case Dispatched(a, revision) =>
      && a !in DispatchedSet(before)
      && LastDispatchRevision(before) < revision
      && !HasObserved(before)
      && Dispatches(before) == RetryCount(before)
    case Executed(a) => a in DispatchedSet(before) && a !in ExecutedSet(before)
    case Recorded(a, _) => a in ExecutedSet(before) && !HasObserved(before)
    case RetryAuthorized(a) =>
      && Retryable(policy)
      && a in DispatchedSet(before)
      && !HasObserved(before)
      && Dispatches(before) == RetryCount(before) + 1
    case PreparationInterrupted(a) => a !in DispatchedSet(before)
    case DispatchInterrupted(a) => !Retryable(policy) && a in DispatchedSet(before) && !HasObserved(before)
    case Reconciled(status) => Terminal(status) && !HasObserved(before)
    case Observed(status, _) => Terminal(status) && !HasObserved(before)
    case Parked => !HasObserved(before)
  }

  ghost predicate JournalSound(policy: Policy, journal: seq<Event>) {
    forall k :: 0 <= k < |journal| ==> EventAllowed(policy, journal[..k], journal[k])
  }

  lemma JournalSnoc(policy: Policy, journal: seq<Event>, e: Event)
    requires JournalSound(policy, journal) && EventAllowed(policy, journal, e)
    ensures JournalSound(policy, journal + [e])
  {
    hide EventAllowed;
    var all := journal + [e];
    assert all[..|journal|] == journal;
    forall k | 0 <= k < |journal| ensures EventAllowed(policy, all[..k], all[k]) {
      assert all[..k] == journal[..k];
    }
  }

  lemma SummarySnoc(journal: seq<Event>, e: Event)
    ensures DispatchedSet(journal + [e]) == DispatchedSet(journal) + (if e.Dispatched? then {e.attempt} else {})
    ensures ExecutedSet(journal + [e]) == ExecutedSet(journal) + (if e.Executed? then {e.attempt} else {})
    ensures HasObserved(journal + [e]) == (HasObserved(journal) || e.Observed?)
    ensures Dispatches(journal + [e]) == Dispatches(journal) + (if e.Dispatched? then 1 else 0)
    ensures Executions(journal + [e]) == Executions(journal) + (if e.Executed? then 1 else 0)
    ensures RetryCount(journal + [e]) == RetryCount(journal) + (if e.RetryAuthorized? then 1 else 0)
    ensures LastDispatchRevision(journal + [e]) == (if e.Dispatched? then e.revision else LastDispatchRevision(journal))
  {
    var all, n := journal + [e], |journal|;
    assert all[..n] == journal && all[n] == e;
    assert forall k :: 0 <= k < n ==> all[k] == journal[k];
  }

  // ----- The invariant -----------------------------------------------------------------------------------

  /** Only the last attempt can be unsettled or settled with an outcome, and it agrees with the
      effect's status. */
  ghost predicate AttemptMatches(s: State, i: nat)
    requires i < |s.attempts|
  {
    match s.attempts[i].state
    case Prepared => i == |s.attempts| - 1 && s.status == Authorized && i !in DispatchedSet(s.journal)
    case Running => i == |s.attempts| - 1 && s.status == Dispatching && i in DispatchedSet(s.journal)
    case Finished(outcome) =>
      && i == |s.attempts| - 1
      && (s.status == StatusOf(outcome) || (outcome == Unproven && Terminal(s.status) && s.status != Denied))
    case InterruptedUndispatched => i !in DispatchedSet(s.journal)
    case InterruptedRetryable => true
  }

  ghost predicate AttemptsSound(s: State) {
    && (forall i :: 0 <= i < |s.attempts| ==> AttemptMatches(s, i))
    && (forall a :: a in DispatchedSet(s.journal) ==> a < |s.attempts|)
    && ExecutedSet(s.journal) <= DispatchedSet(s.journal)
    && (s.status == Dispatching ==> s.attempts != [] && s.attempts[|s.attempts| - 1].state == Running)
  }

  function PendingDrivers(drivers: seq<Driver>): nat {
    if drivers == [] then 0
    else PendingDrivers(drivers[..|drivers| - 1])
         + if drivers[|drivers| - 1].pc.Marked? || drivers[|drivers| - 1].pc.Ready? then 1 else 0
  }

  ghost predicate DriverSound(s: State, d: nat)
    requires d < |s.drivers|
  {
    match s.drivers[d].pc
    case HasPrepared(a) => Owns(s, d, a) && a !in DispatchedSet(s.journal)
    case PreparedViewed(a, _) => Owns(s, d, a) && a !in DispatchedSet(s.journal)
    case Marked(a) => Owns(s, d, a) && a in DispatchedSet(s.journal) && a !in ExecutedSet(s.journal)
    case Ready(a, _) => Owns(s, d, a) && a in DispatchedSet(s.journal) && a !in ExecutedSet(s.journal)
    case Ran(a, _, _) => Owns(s, d, a) && a in ExecutedSet(s.journal)
    case Observing => Terminal(s.status)
    case _ => true
  }

  ghost predicate Owns(s: State, d: nat, a: nat) {
    a < |s.attempts| && s.attempts[a].owner == d
  }

  ghost predicate DriversSound(s: State) {
    forall d :: 0 <= d < |s.drivers| ==> DriverSound(s, d)
  }

  ghost predicate Counted(s: State) {
    && Dispatches(s.journal) == RetryCount(s.journal) + (if s.status == Authorized || s.status == Denied then 0 else 1)
    && Dispatches(s.journal) == Executions(s.journal) + PendingDrivers(s.drivers)
    && LastDispatchRevision(s.journal) <= s.revision
  }

  /** A recorded observation shows the effect as it is now and stays. */
  ghost predicate ObservationSound(s: State) {
    && (HasObserved(s.journal) ==> Terminal(s.status))
    && (forall k :: 0 <= k < |s.journal| && s.journal[k].Observed? ==> s.journal[k] == Observed(s.status, s.revision))
  }

  ghost predicate LeaseSound(s: State) {
    && (s.lease.Some? <==> s.run == RunRunning)
    && (s.lease.Some? ==> s.lease.value == s.token)
  }

  ghost predicate LedgerSound(s: State) {
    && JournalSound(s.policy, s.journal)
    && AttemptsSound(s)
    && DriversSound(s)
    && Counted(s)
    && ObservationSound(s)
  }

  ghost predicate Sound(s: State) {
    LedgerSound(s) && LeaseSound(s)
  }

  // ----- Every step keeps it -------------------------------------------------------------------------------

  predicate Pending(pc: Pc) {
    pc.Marked? || pc.Ready?
  }

  lemma {:induction false} PendingUpdate(drivers: seq<Driver>, d: nat, x: Driver)
    requires d < |drivers|
    ensures PendingDrivers(drivers[d := x])
         == PendingDrivers(drivers) - (if Pending(drivers[d].pc) then 1 else 0) + (if Pending(x.pc) then 1 else 0)
  {
    var n := |drivers| - 1;
    if d < n {
      PendingUpdate(drivers[..n], d, x);
      assert drivers[d := x][..n] == drivers[..n][d := x];
    } else {
      assert drivers[d := x][..n] == drivers[..n];
    }
  }

  /** Moving a driver without writing anything. */
  lemma SetPcSound(s: State, d: nat, pc: Pc)
    requires Sound(s) && d < |s.drivers|
    requires Pending(pc) == Pending(s.drivers[d].pc)
    requires DriverSound(SetPc(s, d, pc), d)
    ensures Sound(SetPc(s, d, pc))
  {
    hide JournalSound, DispatchedSet, ExecutedSet, Dispatches, Executions, RetryCount, PendingDrivers, LastDispatchRevision;
    var t := SetPc(s, d, pc);
    PendingUpdate(s.drivers, d, t.drivers[d]);
    assert forall i :: 0 <= i < |t.attempts| ==> AttemptMatches(s, i) ==> AttemptMatches(t, i);
    assert forall i :: 0 <= i < |t.drivers| && i != d ==> DriverSound(s, i) ==> DriverSound(t, i);
  }

  lemma PrepareSound(s: State, d: nat, outcome: Outcome)
    requires Sound(s) && d < |s.drivers| && s.drivers[d].pc.Viewed?
    requires PrepareAttempt(s, s.drivers[d].token, d, s.drivers[d].pc.revision).Some?
    ensures Sound(DriveStep(s, d, outcome))
  {
    hide JournalSound, DispatchedSet, ExecutedSet, Dispatches, Executions, RetryCount, PendingDrivers, LastDispatchRevision;
    var a := |s.attempts|;
    var t := DriveStep(s, d, outcome);
    SummarySnoc(s.journal, AttemptPrepared(a));
    JournalSnoc(s.policy, s.journal, AttemptPrepared(a));
    PendingUpdate(s.drivers, d, t.drivers[d]);
    forall i | 0 <= i < |t.attempts| ensures AttemptMatches(t, i) {
      if i < a { assert AttemptMatches(s, i); }
    }
    forall i | 0 <= i < |t.drivers| ensures DriverSound(t, i) { assert DriverSound(s, i); }
  }

  lemma MarkSound(s: State, d: nat, outcome: Outcome)
    requires Sound(s) && d < |s.drivers| && s.drivers[d].pc.PreparedViewed?
    requires MarkRunning(s, s.drivers[d].token, s.drivers[d].pc.attempt, s.drivers[d].pc.revision).Some?
    ensures Sound(DriveStep(s, d, outcome))
  {
    hide JournalSound, DispatchedSet, ExecutedSet, Dispatches, Executions, RetryCount, PendingDrivers, LastDispatchRevision;
    var a := s.drivers[d].pc.attempt;
    var t := DriveStep(s, d, outcome);
    var e := Dispatched(a, s.revision + 1);
    assert AttemptMatches(s, a) && DriverSound(s, d);
    SummarySnoc(s.journal, e);
    JournalSnoc(s.policy, s.journal, e);
    PendingUpdate(s.drivers, d, t.drivers[d]);
    forall i | 0 <= i < |t.attempts| ensures AttemptMatches(t, i) { assert AttemptMatches(s, i); }
    forall i | 0 <= i < |t.drivers| ensures DriverSound(t, i) { assert DriverSound(s, i); }
  }

  lemma ExecuteSound(s: State, d: nat, outcome: Outcome)
    requires Sound(s) && d < |s.drivers| && s.drivers[d].pc.Ready?
    ensures Sound(DriveStep(s, d, outcome))
  {
    hide JournalSound, DispatchedSet, ExecutedSet, Dispatches, Executions, RetryCount, PendingDrivers, LastDispatchRevision;
    var a := s.drivers[d].pc.attempt;
    var t := DriveStep(s, d, outcome);
    assert DriverSound(s, d);
    SummarySnoc(s.journal, Executed(a));
    JournalSnoc(s.policy, s.journal, Executed(a));
    PendingUpdate(s.drivers, d, t.drivers[d]);
    forall i | 0 <= i < |t.attempts| ensures AttemptMatches(t, i) { assert AttemptMatches(s, i); }
    forall i | 0 <= i < |t.drivers| ensures DriverSound(t, i) { assert DriverSound(s, i); }
  }

  lemma RecordSound(s: State, d: nat, outcome: Outcome)
    requires Sound(s) && d < |s.drivers| && s.drivers[d].pc.Ran?
    requires var pc := s.drivers[d].pc; RecordOutcome(s, s.drivers[d].token, pc.attempt, pc.revision, pc.outcome).Some?
    ensures Sound(DriveStep(s, d, outcome))
  {
    hide JournalSound, DispatchedSet, ExecutedSet, Dispatches, Executions, RetryCount, PendingDrivers, LastDispatchRevision;
    var a, e := s.drivers[d].pc.attempt, Recorded(s.drivers[d].pc.attempt, s.drivers[d].pc.outcome);
    var t := DriveStep(s, d, outcome);
    assert DriverSound(s, d) && AttemptMatches(s, a);
    SummarySnoc(s.journal, e);
    JournalSnoc(s.policy, s.journal, e);
    PendingUpdate(s.drivers, d, t.drivers[d]);
    forall i | 0 <= i < |t.attempts| ensures AttemptMatches(t, i) { assert AttemptMatches(s, i); }
    forall i | 0 <= i < |t.drivers| ensures DriverSound(t, i) { assert DriverSound(s, i); }
  }

  lemma ObserveSound(s: State, d: nat, outcome: Outcome)
    requires Sound(s) && d < |s.drivers| && s.drivers[d].pc.Observing?
    requires RecordObservation(s, s.drivers[d].token).Some?
    ensures Sound(DriveStep(s, d, outcome))
  {
    hide JournalSound, DispatchedSet, ExecutedSet, Dispatches, Executions, RetryCount, PendingDrivers, LastDispatchRevision;
    var e := Observed(s.status, s.revision);
    var t := DriveStep(s, d, outcome);
    SummarySnoc(s.journal, e);
    JournalSnoc(s.policy, s.journal, e);
    PendingUpdate(s.drivers, d, t.drivers[d]);
    forall i | 0 <= i < |t.attempts| ensures AttemptMatches(t, i) { assert AttemptMatches(s, i); }
    forall i | 0 <= i < |t.drivers| ensures DriverSound(t, i) { assert DriverSound(s, i); }
  }

  lemma ParkSound(s: State, d: nat, outcome: Outcome)
    requires Sound(s) && d < |s.drivers| && s.drivers[d].pc.Parking?
    requires ParkRun(s, s.drivers[d].token).Some?
    ensures Sound(DriveStep(s, d, outcome))
  {
    hide JournalSound, DispatchedSet, ExecutedSet, Dispatches, Executions, RetryCount, PendingDrivers, LastDispatchRevision;
    var t := DriveStep(s, d, outcome);
    SummarySnoc(s.journal, Parked);
    JournalSnoc(s.policy, s.journal, Parked);
    PendingUpdate(s.drivers, d, t.drivers[d]);
    forall i | 0 <= i < |t.attempts| ensures AttemptMatches(t, i) { assert AttemptMatches(s, i); }
    forall i | 0 <= i < |t.drivers| ensures DriverSound(t, i) { assert DriverSound(s, i); }
  }

  lemma DriveSound(s: State, d: nat, outcome: Outcome)
    requires Sound(s) && d < |s.drivers|
    ensures Sound(DriveStep(s, d, outcome))
  {
    hide Sound, PrepareAttempt, MarkRunning, RecordOutcome, RecordObservation, ParkRun;
    DriverSoundAt(s, d);
    match s.drivers[d].pc {
      case Start =>
        SetPcSound(s, d, if s.status == Authorized then Viewed(s.revision) else if Terminal(s.status) then Observing
                         else if s.status == OutcomeUnknown then Parking else Stopped);
      case Viewed(revision) =>
        if PrepareAttempt(s, s.drivers[d].token, d, revision).Some? { PrepareSound(s, d, outcome); }
        else { SetPcSound(s, d, Stopped); }
      case HasPrepared(a) => SetPcSound(s, d, PreparedViewed(a, s.revision));
      case PreparedViewed(a, revision) =>
        if MarkRunning(s, s.drivers[d].token, a, revision).Some? { MarkSound(s, d, outcome); }
        else { SetPcSound(s, d, Stopped); }
      case Marked(a) => SetPcSound(s, d, Ready(a, s.revision));
      case Ready(a, revision) => ExecuteSound(s, d, outcome);
      case Ran(a, revision, result) =>
        if RecordOutcome(s, s.drivers[d].token, a, revision, result).Some? { RecordSound(s, d, outcome); }
        else { SetPcSound(s, d, Stopped); }
      case Observing =>
        if RecordObservation(s, s.drivers[d].token).Some? { ObserveSound(s, d, outcome); }
        else { SetPcSound(s, d, Stopped); }
      case Parking =>
        if ParkRun(s, s.drivers[d].token).Some? { ParkSound(s, d, outcome); }
        else { SetPcSound(s, d, Stopped); }
      case Stopped =>
    }
  }

  lemma DriverSoundAt(s: State, d: nat)
    requires Sound(s) && d < |s.drivers|
    ensures DriverSound(s, d)
  {
  }

  /** Nothing here depends on the lease or the run. */
  lemma LeaseIrrelevant(s: State, run: RunStatus, token: nat, lease: Option<nat>)
    requires LedgerSound(s)
    ensures LedgerSound(s.(run := run, token := token, lease := lease))
  {
    hide JournalSound, DispatchedSet, ExecutedSet, Dispatches, Executions, RetryCount, PendingDrivers, LastDispatchRevision;
    var t := s.(run := run, token := token, lease := lease);
    forall i | 0 <= i < |t.attempts| ensures AttemptMatches(t, i) { assert AttemptMatches(s, i); }
    forall i | 0 <= i < |t.drivers| ensures DriverSound(t, i) { assert DriverSound(s, i); }
  }

  /** The three ways recovery settles an attempt. */
  lemma SettleSound(s: State, a: nat, state: AttemptState, status: Status, e: Event)
    requires LedgerSound(s) && a < |s.attempts|
    requires
      || (s.attempts[a].state == Running && !Retryable(s.policy) && state == Finished(Unproven)
          && status == OutcomeUnknown && e == DispatchInterrupted(a))
      || (s.attempts[a].state == Running && Retryable(s.policy) && state == InterruptedRetryable
          && status == Authorized && e == RetryAuthorized(a))
      || (s.attempts[a].state == Prepared && state == InterruptedUndispatched && status == Authorized
          && e == PreparationInterrupted(a))
    ensures LedgerSound(SetAttempt(s, a, state, status, e))
  {
    hide JournalSound, DispatchedSet, ExecutedSet, Dispatches, Executions, RetryCount, PendingDrivers, LastDispatchRevision;
    var t := SetAttempt(s, a, state, status, e);
    assert AttemptMatches(s, a);
    SummarySnoc(s.journal, e);
    JournalSnoc(s.policy, s.journal, e);
    forall i | 0 <= i < |t.attempts| ensures AttemptMatches(t, i) { assert AttemptMatches(s, i); }
    forall i | 0 <= i < |t.drivers| ensures DriverSound(t, i) { assert DriverSound(s, i); }
  }

  lemma ReconcileSound(s: State, status: Status)
    requires Sound(s) && ReconcileOutcome(s, status).Some?
    ensures Sound(ReconcileOutcome(s, status).value)
  {
    hide JournalSound, DispatchedSet, ExecutedSet, Dispatches, Executions, RetryCount, PendingDrivers, LastDispatchRevision;
    var t := ReconcileOutcome(s, status).value;
    SummarySnoc(s.journal, Reconciled(status));
    JournalSnoc(s.policy, s.journal, Reconciled(status));
    forall i | 0 <= i < |t.attempts| ensures AttemptMatches(t, i) { assert AttemptMatches(s, i); }
    forall i | 0 <= i < |t.drivers| ensures DriverSound(t, i) { assert DriverSound(s, i); }
  }

  lemma EnterSound(s: State, token: nat)
    requires Sound(s)
    ensures Sound(s.(drivers := s.drivers + [Driver(token, Start)]))
  {
    hide JournalSound, DispatchedSet, ExecutedSet, Dispatches, Executions, RetryCount, LastDispatchRevision;
    var t := s.(drivers := s.drivers + [Driver(token, Start)]);
    assert t.drivers[..|s.drivers|] == s.drivers;
    forall i | 0 <= i < |t.attempts| ensures AttemptMatches(t, i) { assert AttemptMatches(s, i); }
    forall i | 0 <= i < |t.drivers| ensures DriverSound(t, i) { if i < |s.drivers| { assert DriverSound(s, i); } }
  }

  /** The store's two classifications of an interrupted dispatch agree, and retry exactly the
      retryable policies. */
  lemma ClassificationsAgree(boundary: Boundary, policy: Policy)
    ensures CandidateDisposition(boundary, policy) == ClassifyRecovery(boundary, policy)
    ensures Retries(ClassifyRecovery(boundary, policy)) <==> boundary == AtRunning && Retryable(policy)
  {
  }

  lemma {:induction false} OnlyLastIsCandidate(s: State, token: nat, n: nat)
    requires LedgerSound(s) && n <= |s.attempts|
    ensures |Candidates(s, token, n)| <= (if n == |s.attempts| then 1 else 0)
    ensures forall a :: a in Candidates(s, token, n) ==>
              a < |s.attempts| && CandidateBoundary(s.status, s.attempts[a].state).Some?
  {
    hide JournalSound, DriversSound, Counted, DispatchedSet, ExecutedSet;
    if n > 0 {
      OnlyLastIsCandidate(s, token, n - 1);
      assert AttemptMatches(s, n - 1);
    }
  }

  lemma SettleCandidateSound(s: State, a: nat)
    requires LedgerSound(s) && a < |s.attempts| && s.lease == None
    requires CandidateBoundary(s.status, s.attempts[a].state).Some?
    ensures SettleCandidate(s, a).Some?
    ensures var (t, run) := SettleCandidate(s, a).value;
            LedgerSound(t) && t.lease == None && run != RunRunning
  {
    hide LedgerSound;
    var boundary := CandidateBoundary(s.status, s.attempts[a].state).value;
    ClassificationsAgree(boundary, s.policy);
    if boundary == AtPrepared {
      SettleSound(s, a, InterruptedUndispatched, Authorized, PreparationInterrupted(a));
    } else if boundary == AtRunning {
      if Retryable(s.policy) {
        SettleSound(s, a, InterruptedRetryable, Authorized, RetryAuthorized(a));
      } else {
        SettleSound(s, a, Finished(Unproven), OutcomeUnknown, DispatchInterrupted(a));
      }
    }
  }

  /** Recovery of an active lease never hits one of its invariant errors, and its run is afterwards
      queued again or waiting for an operator, with no lease and a newer token. */
  lemma RecoverySucceeds(s: State)
    requires Sound(s) && s.lease.Some?
    ensures RecoverLease(s).Some?
    ensures var t := RecoverLease(s).value;
            && Sound(t)
            && t.lease == None
            && t.token == s.token + 1
            && (t.run == Queued || (t.run == Waiting && t.status == OutcomeUnknown))
  {
    hide LedgerSound, SettleCandidate, Candidates;
    var token := s.lease.value;
    var expired := s.(lease := None);
    LeaseIrrelevant(s, s.run, s.token, None);
    OnlyLastIsCandidate(s, token, |s.attempts|);
    var candidates := Candidates(s, token, |s.attempts|);
    if |candidates| == 0 {
      LeaseIrrelevant(expired, Queued, token + 1, None);
    } else {
      assert candidates[0] in candidates;
      SettleCandidateSound(expired, candidates[0]);
      SettledRun(expired, candidates[0]);
      var (t, run) := SettleCandidate(expired, candidates[0]).value;
      LeaseIrrelevant(t, run, token + 1, None);
    }
  }

  lemma SettledRun(s: State, a: nat)
    requires a < |s.attempts| && SettleCandidate(s, a).Some?
    ensures var (t, run) := SettleCandidate(s, a).value;
            run == Queued || (run == Waiting && t.status == OutcomeUnknown)
  {
  }

  lemma NextSound(s: State, step: Step)
    requires Sound(s)
    ensures Sound(Next(s, step))
  {
    hide LedgerSound, RecoverLease, DriveStep, ReconcileOutcome;
    match step {
      case Claim => LeaseIrrelevant(s, RunRunning, s.token + 1, Some(s.token + 1));
      case Release => LeaseIrrelevant(s, Queued, s.token + 1, None);
      case FinishRun => LeaseIrrelevant(s, RunFinished, s.token + 1, None);
      case Expire => if s.lease.Some? { RecoverySucceeds(s); }
      case RecoverEffect(a) =>
        if RecoverInterrupted(s, a).Some? {
          ClassificationsAgree(AtRunning, s.policy);
          SettleSound(s, a, Finished(Unproven), OutcomeUnknown, DispatchInterrupted(a));
        }
      case ReconcileBy(status) => if ReconcileOutcome(s, status).Some? { ReconcileSound(s, status); }
      case Resume => LeaseIrrelevant(s, Queued, s.token, s.lease);
      case Enter(token) => EnterSound(s, token);
      case Drive(d, outcome) => if d < |s.drivers| { DriveSound(s, d, outcome); }
    }
  }

  lemma {:induction false} RunSound(s: State, steps: seq<Step>)
    requires Sound(s)
    ensures Sound(Run(s, steps))
  {
    hide Sound, Next;
    if steps != [] {
      RunSound(s, steps[..|steps| - 1]);
      NextSound(Run(s, steps[..|steps| - 1]), steps[|steps| - 1]);
    }
  }

  lemma InitialSound(policy: Policy, denied: bool, revision: nat)
    ensures Sound(Initial(policy, denied, revision))
  {
  }

  // ----- Main results ------------------------------------------------------------------------------------------

  ghost predicate DispatchedBefore(journal: seq<Event>, k: nat, a: nat)
    requires k <= |journal|
  {
    exists j :: 0 <= j < k && journal[j].Dispatched? && journal[j].attempt == a
  }

  /** Over every interleaving of drivers, crashes, recoveries and operator actions: an execution is
      preceded by its committed running record, no attempt is executed twice, no two dispatches
      share an attempt or an effect revision, nothing is dispatched, retried or recorded once the
      effect was observed, and at most one observation is ever written. */
  lemma DispatchSafety(policy: Policy, denied: bool, revision: nat, steps: seq<Step>)
    ensures var journal := Run(Initial(policy, denied, revision), steps).journal;
            && (forall k :: 0 <= k < |journal| && journal[k].Executed? ==> DispatchedBefore(journal, k, journal[k].attempt))
            && (forall j, k :: 0 <= j < k < |journal| && journal[j].Executed? && journal[k].Executed? ==>
                  journal[j].attempt != journal[k].attempt)
            && (forall j, k :: 0 <= j < k < |journal| && journal[j].Dispatched? && journal[k].Dispatched? ==>
                  journal[j].attempt != journal[k].attempt && journal[j].revision < journal[k].revision)
            && (forall j, k :: 0 <= j < k < |journal| && journal[j].Observed? ==>
                  journal[k].Executed? || journal[k].PreparationInterrupted?)
  {
    hide Run, Sound;
    var s := Run(Initial(policy, denied, revision), steps);
    InitialSound(policy, denied, revision);
    RunSound(Initial(policy, denied, revision), steps);
    SoundJournal(s);
    RunPolicy(Initial(policy, denied, revision), steps);
    JournalReads(policy, s.journal);
  }

  lemma SoundJournal(s: State)
    requires Sound(s)
    ensures JournalSound(s.policy, s.journal)
  {
  }

  lemma {:induction false} RunPolicy(s: State, steps: seq<Step>)
    ensures Run(s, steps).policy == s.policy
  {
    hide Next;
    if steps != [] {
      var t := Run(s, steps[..|steps| - 1]);
      RunPolicy(s, steps[..|steps| - 1]);
      NextPolicy(t, steps[|steps| - 1]);
    }
  }

  lemma NextPolicy(s: State, step: Step)
    ensures Next(s, step).policy == s.policy
  {
  }

  /** The allowed-event discipline, read off as properties of positions. */
  lemma JournalReads(policy: Policy, journal: seq<Event>)
    requires JournalSound(policy, journal)
    ensures forall k :: 0 <= k < |journal| && journal[k].Executed? ==> DispatchedBefore(journal, k, journal[k].attempt)
    ensures forall j, k :: 0 <= j < k < |journal| && journal[j].Executed? && journal[k].Executed? ==>
              journal[j].attempt != journal[k].attempt
    ensures forall j, k :: 0 <= j < k < |journal| && journal[j].Dispatched? && journal[k].Dispatched? ==>
              journal[j].attempt != journal[k].attempt && journal[j].revision < journal[k].revision
    ensures forall j, k :: 0 <= j < k < |journal| && journal[j].Observed? ==>
              journal[k].Executed? || journal[k].PreparationInterrupted?
  {
    hide LastDispatchRevision, Dispatches, RetryCount;
    forall k | 0 <= k < |journal| && journal[k].Executed?
      ensures DispatchedBefore(journal, k, journal[k].attempt)
    {
      assert EventAllowed(policy, journal[..k], journal[k]);
      var j :| 0 <= j < k && journal[..k][j].Dispatched? && journal[..k][j].attempt == journal[k].attempt;
      assert journal[j] == journal[..k][j];
    }
    forall j, k | 0 <= j < k < |journal| && journal[j].Executed? && journal[k].Executed?
      ensures journal[j].attempt != journal[k].attempt
    {
      assert EventAllowed(policy, journal[..k], journal[k]);
      assert journal[..k][j] == journal[j];
    }
    forall j, k | 0 <= j < k < |journal| && journal[j].Dispatched? && journal[k].Dispatched?
      ensures journal[j].attempt != journal[k].attempt && journal[j].revision < journal[k].revision
    {
      assert EventAllowed(policy, journal[..k], journal[k]);
      assert journal[..k][j] == journal[j];
      LastDispatchLargest(policy, journal, k, j);
    }
    forall j, k | 0 <= j < k < |journal| && journal[j].Observed?
      ensures journal[k].Executed? || journal[k].PreparationInterrupted?
    {
      assert EventAllowed(policy, journal[..k], journal[k]);
      assert journal[..k][j] == journal[j];
    }
  }

  lemma {:induction false} LastDispatchLargest(policy: Policy, journal: seq<Event>, n: nat, j: nat)
    requires JournalSound(policy, journal) && j < n <= |journal| && journal[j].Dispatched?
    ensures journal[j].revision <= LastDispatchRevision(journal[..n])
  {
    hide Dispatches, RetryCount, DispatchedSet, HasObserved;
    assert journal[..n][..n - 1] == journal[..n - 1];
    if j < n - 1 {
      LastDispatchLargest(policy, journal, n - 1, j);
      assert EventAllowed(policy, journal[..n - 1], journal[n - 1]);
    }
  }

  lemma {:induction false} RetriesNeedPolicy(policy: Policy, journal: seq<Event>, n: nat)
    requires JournalSound(policy, journal) && n <= |journal| && !Retryable(policy)
    ensures RetryCount(journal[..n]) == 0
  {
    hide Dispatches, DispatchedSet, HasObserved;
    if n > 0 {
      assert journal[..n][..n - 1] == journal[..n - 1];
      assert EventAllowed(policy, journal[..n - 1], journal[n - 1]);
      RetriesNeedPolicy(policy, journal, n - 1);
    }
  }

  /** The effect runs at most once more than it was authorised to be retried; an effect whose
      policy forbids retrying runs at most once, whatever crashes and recoveries happen. */
  lemma AtMostOnce(policy: Policy, denied: bool, revision: nat, steps: seq<Step>)
    ensures var journal := Run(Initial(policy, denied, revision), steps).journal;
            && Executions(journal) <= Dispatches(journal) <= RetryCount(journal) + 1
            && (!Retryable(policy) ==> Executions(journal) <= 1)
            && (denied ==> Executions(journal) == 0)
  {
    hide Run;
    var s := Run(Initial(policy, denied, revision), steps);
    InitialSound(policy, denied, revision);
    RunSound(Initial(policy, denied, revision), steps);
    RunPolicy(Initial(policy, denied, revision), steps);
    assert s.journal[..|s.journal|] == s.journal;
    if !Retryable(policy) {
      RetriesNeedPolicy(policy, s.journal, |s.journal|);
    }
    if denied {
      SettledForever(Initial(policy, denied, revision), steps);
    }
  }

  predicate Settled(status: Status) {
    Terminal(status) || status == OutcomeUnknown
  }

  lemma SettledStep(s: State, step: Step)
    requires Sound(s) && Settled(s.status)
    ensures var t := Next(s, step);
            && Settled(t.status)
            && (Terminal(s.status) ==> t.status == s.status && t.revision == s.revision)
            && (s.status == OutcomeUnknown && !step.ReconcileBy? ==> t.status == OutcomeUnknown)
            && Dispatches(t.journal) == Dispatches(s.journal)
  {
    hide JournalSound, DriversSound, Counted, ObservationSound, DispatchedSet, ExecutedSet, Dispatches, HasObserved, PrepareAttempt, Candidates, SettleCandidate;
    forall e ensures Dispatches(s.journal + [e]) == Dispatches(s.journal) + (if e.Dispatched? then 1 else 0) {
      SummarySnoc(s.journal, e);
    }
    if step.Expire? && s.lease.Some? {
      RecoverySucceeds(s);
      SettledExpiry(s);
    } else if step.Drive? && step.driver < |s.drivers| {
      SettledDrive(s, step.driver, step.outcome);
    }
  }

  lemma SettledDrive(s: State, d: nat, outcome: Outcome)
    requires Settled(s.status) && d < |s.drivers|
    ensures var t := DriveStep(s, d, outcome);
            t.status == s.status && t.revision == s.revision && Dispatches(t.journal) == Dispatches(s.journal)
  {
    hide HasObserved, Dispatches;
    forall e ensures Dispatches(s.journal + [e]) == Dispatches(s.journal) + (if e.Dispatched? then 1 else 0) {
      SummarySnoc(s.journal, e);
    }
  }

  lemma SettledExpiry(s: State)
    requires Settled(s.status) && s.lease.Some? && RecoverLease(s).Some?
    ensures var t := RecoverLease(s).value;
            t.status == s.status && t.revision == s.revision && t.journal == s.journal
  {
  }

  /** A settled effect is never dispatched again, an unknown outcome leaves that status only by
      reconciliation, and a final status never changes. */
  lemma {:induction false} SettledForever(s: State, steps: seq<Step>)
    requires Sound(s) && Settled(s.status)
    ensures var t := Run(s, steps);
            && Settled(t.status)
            && (Terminal(s.status) ==> t.status == s.status && t.revision == s.revision)
            && ((forall i :: 0 <= i < |steps| ==> !steps[i].ReconcileBy?) ==> t.status == s.status)
            && Dispatches(t.journal) == Dispatches(s.journal)
  {
    hide Sound, Next, Dispatches;
    if steps != [] {
      var n := |steps| - 1;
      SettledForever(s, steps[..n]);
      RunSound(s, steps[..n]);
      SettledStep(Run(s, steps[..n]), steps[n]);
    }
  }

  /** What the agent was shown is what the effect's record says from then on. */
  lemma ObservedIsFinal(policy: Policy, denied: bool, revision: nat, steps: seq<Step>, more: seq<Step>)
    ensures var s := Run(Initial(policy, denied, revision), steps);
            forall k :: 0 <= k < |s.journal| && s.journal[k].Observed? ==>
              s.journal[k] == Observed(Run(s, more).status, Run(s, more).revision) && Terminal(Run(s, more).status)
  {
    hide Run;
    var s := Run(Initial(policy, denied, revision), steps);
    InitialSound(policy, denied, revision);
    RunSound(Initial(policy, denied, revision), steps);
    if HasObserved(s.journal) {
      SettledForever(s, more);
    }
  }

  /** While the outcome is unknown nothing was observed, no driver is about to observe, and a driver
      that holds the lease and looks at the effect parks the run in two steps. */
  lemma UnknownIsParked(policy: Policy, denied: bool, revision: nat, steps: seq<Step>)
    ensures var s := Run(Initial(policy, denied, revision), steps);
            s.status == OutcomeUnknown ==>
              && !HasObserved(s.journal)
              && (forall d :: 0 <= d < |s.drivers| ==> !s.drivers[d].pc.Observing?)
              && (forall d: nat, outcome :: d < |s.drivers| && s.drivers[d].pc == Start && FenceActive(s, s.drivers[d].token) ==>
                    Parks(DriveStep(s, d, outcome), d, outcome))
              && (forall d: nat, outcome :: d < |s.drivers| && s.drivers[d].pc == Parking && FenceActive(s, s.drivers[d].token) ==>
                    Parks(s, d, outcome))
  {
    hide Run, JournalSound, DispatchedSet, ExecutedSet, HasObserved;
    var s := Run(Initial(policy, denied, revision), steps);
    InitialSound(policy, denied, revision);
    RunSound(Initial(policy, denied, revision), steps);
    forall d | 0 <= d < |s.drivers| && s.status == OutcomeUnknown ensures !s.drivers[d].pc.Observing? {
      assert DriverSound(s, d);
    }
  }

  ghost predicate Parks(s: State, d: nat, outcome: Outcome) {
    && d < |s.drivers|
    && var t := DriveStep(s, d, outcome);
       t.run == Waiting && t.lease == None && t.status == OutcomeUnknown && t.token > s.token
  }

  function DriveTimes(s: State, d: nat, outcome: Outcome, n: nat): State
    requires d < |s.drivers|
    ensures d < |DriveTimes(s, d, outcome, n).drivers|
  {
    if n == 0 then s else DriveStep(DriveTimes(s, d, outcome, n - 1), d, outcome)
  }

  /** Left alone under its lease, a driver takes an authorised effect through all its records: the
      preparation, the running record, one execution, the executor's outcome exactly, and then the
      observation, or for an unproven outcome the parked run. */
  lemma UndisturbedDispatch(s: State, d: nat, outcome: Outcome)
    requires d < |s.drivers| && s.drivers[d].pc == Start && FenceActive(s, s.drivers[d].token)
    requires s.status == Authorized && !HasUnsettled(s.attempts) && !HasObserved(s.journal)
    ensures var t, a := DriveTimes(s, d, outcome, 8), |s.attempts|;
            && t.status == StatusOf(outcome)
            && t.attempts == s.attempts + [Attempt(d, s.drivers[d].token, Finished(outcome))]
            && t.drivers[d].pc == Stopped
            && t.journal == s.journal
                 + [AttemptPrepared(a), Dispatched(a, s.revision + 2), Executed(a), Recorded(a, outcome)]
                 + [if outcome == Unproven then Parked else Observed(t.status, s.revision + 3)]
            && t.run == (if outcome == Unproven then Waiting else RunRunning)
            && t.lease == (if outcome == Unproven then None else s.lease)
  {
    hide HasUnsettled, HasObserved, DriveTimes;
    var a := |s.attempts|;
    var s7 := DriveTimes(s, d, outcome, 7);
    var written := [AttemptPrepared(a), Dispatched(a, s.revision + 2), Executed(a), Recorded(a, outcome)];
    DispatchHalf(s, d, outcome);
    OutcomeHalf(s, d, outcome);
    assert s7.journal == s.journal + written;
    ObservedInNeither(s.journal, written);
    DriveAgain(s, d, outcome, 7);
    LastRecord(s7, d, outcome);
  }

  lemma ObservedInNeither(journal: seq<Event>, more: seq<Event>)
    requires !HasObserved(journal) && (forall e :: e in more ==> !e.Observed?)
    ensures !HasObserved(journal + more)
  {
  }

  lemma LastRecord(s: State, d: nat, outcome: Outcome)
    requires d < |s.drivers| && FenceActive(s, s.drivers[d].token) && !HasObserved(s.journal)
    requires s.drivers[d].pc == (if outcome == Unproven then Parking else Observing) && s.status == StatusOf(outcome)
    ensures var t := DriveStep(s, d, outcome);
            && t.status == s.status
            && t.attempts == s.attempts
            && t.drivers[d].pc == Stopped
            && t.journal == s.journal + [if outcome == Unproven then Parked else Observed(s.status, s.revision)]
            && t.run == (if outcome == Unproven then Waiting else RunRunning)
            && t.lease == (if outcome == Unproven then None else s.lease)
  {
  }

  lemma DriveAgain(s: State, d: nat, outcome: Outcome, n: nat)
    requires d < |s.drivers|
    ensures DriveTimes(s, d, outcome, 0) == s
    ensures DriveTimes(s, d, outcome, n + 1) == DriveStep(DriveTimes(s, d, outcome, n), d, outcome)
  {
  }

  lemma DispatchHalf(s: State, d: nat, outcome: Outcome)
    requires d < |s.drivers| && s.drivers[d].pc == Start && FenceActive(s, s.drivers[d].token)
    requires s.status == Authorized && !HasUnsettled(s.attempts)
    ensures var a, token := |s.attempts|, s.drivers[d].token;
            DriveTimes(s, d, outcome, 4)
            == s.(status := Dispatching, revision := s.revision + 2,
                  attempts := s.attempts + [Attempt(d, token, Running)],
                  drivers := s.drivers[d := Driver(token, Marked(a))],
                  journal := s.journal + [AttemptPrepared(a)] + [Dispatched(a, s.revision + 2)])
  {
    hide HasUnsettled, HasObserved, DriveTimes;
    var a, token := |s.attempts|, s.drivers[d].token;
    DriveAgain(s, d, outcome, 0);
    DriveAgain(s, d, outcome, 1);
    DriveAgain(s, d, outcome, 2);
    DriveAgain(s, d, outcome, 3);
    var s4 := DriveTimes(s, d, outcome, 4);
    assert s4.drivers == s.drivers[d := Driver(token, Marked(a))];
    assert s4.attempts == s.attempts + [Attempt(d, token, Running)];
  }

  lemma OutcomeHalf(s: State, d: nat, outcome: Outcome)
    requires d < |s.drivers| && s.drivers[d].pc == Start && FenceActive(s, s.drivers[d].token)
    requires s.status == Authorized && !HasUnsettled(s.attempts)
    ensures var a, token, s4 := |s.attempts|, s.drivers[d].token, DriveTimes(s, d, outcome, 4);
            DriveTimes(s, d, outcome, 7)
            == s.(status := StatusOf(outcome), revision := s.revision + 3,
                  attempts := s.attempts + [Attempt(d, token, Finished(outcome))],
                  drivers := s.drivers[d := Driver(token, if outcome == Unproven then Parking else Observing)],
                  journal := s4.journal + [Executed(a)] + [Recorded(a, outcome)])
  {
    hide HasUnsettled, HasObserved, DriveTimes;
    var a, token := |s.attempts|, s.drivers[d].token;
    DispatchHalf(s, d, outcome);
    DriveAgain(s, d, outcome, 4);
    DriveAgain(s, d, outcome, 5);
    DriveAgain(s, d, outcome, 6);
    var s7 := DriveTimes(s, d, outcome, 7);
    assert s7.drivers == s.drivers[d := Driver(token, if outcome == Unproven then Parking else Observing)];
    assert s7.attempts == s.attempts + [Attempt(d, token, Finished(outcome))];
  }
}
