/** Provider admission: the in-flight counter shared by all callers, and the per-minute window. */
module ProviderAdmission {
  import opened Basics

  // ----- In-flight guard ------------------------------------------------------------------------

  /** A caller between the steps of its compare-and-exchange loop. */
  datatype Caller = Idle | Trying(current: nat) | Holding | Refused

  datatype Guards = Guards(count: nat, maximum: nat, callers: seq<Caller>)

  /** `spurious` is a weak exchange that fails although the value matches. */
  datatype GuardStep = Load(caller: nat) | Exchange(caller: nat, spurious: bool) | Drop(caller: nat)

  function Decide(count: nat, maximum: nat): Caller {
    if count < maximum then Trying(count) else Refused
  }

  function GuardNext(g: Guards, step: GuardStep): Guards {
    if step.caller >= |g.callers| then g else
    var i := step.caller;
    match (g.callers[i], step)
    case (Idle, Load(_)) => g.(callers := g.callers[i := Decide(g.count, g.maximum)])
    case (Refused, Load(_)) => g.(callers := g.callers[i := Decide(g.count, g.maximum)])
    case (Trying(current), Exchange(_, spurious)) =>
      if g.count == current && !spurious then
        g.(count := current + 1, callers := g.callers[i := Holding])
      else
        g.(callers := g.callers[i := Decide(g.count, g.maximum)])
    case (Holding, Drop(_)) => g.(count := WrappingDecrement(g.count), callers := g.callers[i := Idle])
    case _ => g
  }

  /** `fetch_sub(1)`; that it never wraps is proved below. */
  function WrappingDecrement(count: nat): nat {
    if count == 0 then U64_MAX else count - 1
  }

  function Held(callers: seq<Caller>): nat {
    if callers == [] then 0
    else Held(callers[..|callers| - 1]) + if callers[|callers| - 1] == Holding then 1 else 0
  }

  function GuardRun(g: Guards, steps: seq<GuardStep>): Guards {
    if steps == [] then g else GuardNext(GuardRun(g, steps[..|steps| - 1]), steps[|steps| - 1])
  }

  ghost predicate GuardsSound(g: Guards) {
    && g.count == Held(g.callers) <= g.maximum
    && forall i :: 0 <= i < |g.callers| && g.callers[i].Trying? ==> g.callers[i].current < g.maximum
  }

  lemma {:induction false} HeldUpdate(callers: seq<Caller>, i: nat, c: Caller)
    requires i < |callers|
    ensures Held(callers[i := c])
         == Held(callers) - (if callers[i] == Holding then 1 else 0) + (if c == Holding then 1 else 0)
    ensures callers[i] == Holding ==> Held(callers) > 0
  {
    var n := |callers| - 1;
    if i < n {
      HeldUpdate(callers[..n], i, c);
      assert callers[i := c][..n] == callers[..n][i := c];
    } else {
      assert callers[i := c][..n] == callers[..n];
    }
  }

  lemma GuardStepSound(g: Guards, step: GuardStep)
    requires GuardsSound(g)
    ensures GuardsSound(GuardNext(g, step)) && GuardNext(g, step).maximum == g.maximum
  {
    var i := step.caller;
    if i < |g.callers| {
      HeldUpdate(g.callers, i, GuardNext(g, step).callers[i]);
    }
  }

  /** Whatever the interleaving, the counter equals the guards held, never exceeds its maximum and
      never wraps. */
  lemma {:induction false} InFlightBounded(callers: nat, maximum: nat, steps: seq<GuardStep>)
    ensures var g := GuardRun(Guards(0, maximum, seq(callers, _ => Idle)), steps);
            g.count == Held(g.callers) <= maximum && GuardsSound(g) && g.maximum == maximum
  {
    hide GuardNext;
    var initial := Guards(0, maximum, seq(callers, _ => Idle));
    if steps == [] {
      NoneHeld(callers);
    } else {
      InFlightBounded(callers, maximum, steps[..|steps| - 1]);
      GuardStepSound(GuardRun(initial, steps[..|steps| - 1]), steps[|steps| - 1]);
    }
  }

  lemma {:induction false} NoneHeld(n: nat)
    ensures Held(seq(n, _ => Idle)) == 0
  {
    if n > 0 {
      NoneHeld(n - 1);
      assert seq(n, _ => Idle)[..n - 1] == seq(n - 1, _ => Idle);
    }
  }

  /** A refusal is real: at the step that refused it the counter stood at its maximum. And free
      capacity is usable: a caller left alone gets its guard in two steps. */
  lemma RefusalAndProgress(g: Guards, step: GuardStep)
    requires GuardsSound(g) && step.caller < |g.callers|
    ensures GuardNext(g, step).callers[step.caller] == Refused && g.callers[step.caller] != Refused ==>
              Held(g.callers) == g.maximum
    ensures g.callers[step.caller] == Idle && Held(g.callers) < g.maximum ==>
              GuardNext(GuardNext(g, Load(step.caller)), Exchange(step.caller, false)).callers[step.caller] == Holding
  {
  }

  // ----- Rate window ------------------------------------------------------------------------------

  datatype Window = Window(minute: nat, requests: nat)

  const INITIAL_WINDOW := Window(0, 0)

  /** One reservation under the lock; `None` is a clock before the epoch. */
  function Reserve(w: Window, minute: Option<nat>, limit: nat): (Window, bool) {
    if minute == None then (w, false) else
    var requests := if w.minute == minute.value then w.requests else 0;
    if requests >= limit then (Window(minute.value, requests), false)
    else (Window(minute.value, requests + 1), true)
  }

  /** The window after the reservations made in this order. */
  function WindowAfter(minutes: seq<Option<nat>>, limit: nat): Window {
    if minutes == [] then INITIAL_WINDOW
    else Reserve(WindowAfter(minutes[..|minutes| - 1], limit), minutes[|minutes| - 1], limit).0
  }

  /** How many of the reservations of minute `m` were granted. */
  function Granted(minutes: seq<Option<nat>>, limit: nat, m: nat): nat {
    if minutes == [] then 0 else
    var before, last := minutes[..|minutes| - 1], minutes[|minutes| - 1];
    Granted(before, limit, m)
      + if last == Some(m) && Reserve(WindowAfter(before, limit), last, limit).1 then 1 else 0
  }

  /** How many reservations were asked for in minute `m`. */
  function Asked(minutes: seq<Option<nat>>, m: nat): nat {
    if minutes == [] then 0
    else Asked(minutes[..|minutes| - 1], m) + if minutes[|minutes| - 1] == Some(m) then 1 else 0
  }

  /** The minute of the latest reservation. */
  function Latest(minutes: seq<Option<nat>>): nat {
    if minutes == [] then 0
    else if minutes[|minutes| - 1].Some? then minutes[|minutes| - 1].value
    else Latest(minutes[..|minutes| - 1])
  }

  /** How many reservations have been asked for in the latest minute since any other one. */
  function Visit(minutes: seq<Option<nat>>): nat {
    if minutes == [] then 0 else
    var before, last := minutes[..|minutes| - 1], minutes[|minutes| - 1];
    if last.None? then Visit(before) else if last.value == Latest(before) then Visit(before) + 1 else 1
  }

  /** The lengths of the separate visits to minute `m`: runs of its reservations that no reservation of
      another minute interrupts. */
  function Visits(minutes: seq<Option<nat>>, m: nat): seq<nat> {
    if minutes == [] then [] else
    var before, last := minutes[..|minutes| - 1], minutes[|minutes| - 1];
    var visits := Visits(before, m);
    if last != Some(m) then visits
    else if Latest(before) == m && visits != [] then visits[..|visits| - 1] + [visits[|visits| - 1] + 1]
    else visits + [1]
  }

  /** A visit is granted up to the limit. */
  function GrantedOf(visits: seq<nat>, limit: nat): nat {
    if visits == [] then 0 else GrantedOf(visits[..|visits| - 1], limit) + Min(limit, visits[|visits| - 1])
  }

  function Sum(visits: seq<nat>): nat {
    if visits == [] then 0 else Sum(visits[..|visits| - 1]) + visits[|visits| - 1]
  }

  lemma VisitsSnoc(visits: seq<nat>, x: nat, limit: nat)
    ensures GrantedOf(visits + [x], limit) == GrantedOf(visits, limit) + Min(limit, x)
    ensures Sum(visits + [x]) == Sum(visits) + x
  {
    assert (visits + [x])[..|visits|] == visits;
  }

  /** The window holds the current visit, cut at the limit. */
  lemma {:induction false} WindowIsVisit(minutes: seq<Option<nat>>, limit: nat)
    ensures WindowAfter(minutes, limit) == Window(Latest(minutes), Min(limit, Visit(minutes)))
  {
    if minutes != [] {
      WindowIsVisit(minutes[..|minutes| - 1], limit);
    }
  }

  ghost predicate LastVisit(minutes: seq<Option<nat>>, m: nat) {
    var visits := Visits(minutes, m);
    && (forall i :: 0 <= i < |visits| ==> visits[i] > 0)
    && (Latest(minutes) == m ==> if visits == [] then Visit(minutes) == 0 else visits[|visits| - 1] == Visit(minutes))
  }

  lemma {:induction false} LastVisitIs(minutes: seq<Option<nat>>, m: nat)
    ensures LastVisit(minutes, m)
  {
    if minutes != [] {
      LastVisitIs(minutes[..|minutes| - 1], m);
    }
  }

  /** For every limit and every order of reservations, what a minute is granted is the sum over its
      visits of each cut at the limit; the visits together are what was asked. */
  lemma {:induction false} GrantedByVisits(minutes: seq<Option<nat>>, limit: nat, m: nat)
    ensures Granted(minutes, limit, m) == GrantedOf(Visits(minutes, m), limit)
    ensures Asked(minutes, m) == Sum(Visits(minutes, m))
  {
    hide WindowAfter, Visit, GrantedOf, Sum;
    if minutes == [] {
      NoVisits(limit);
    } else {
      var before, last := minutes[..|minutes| - 1], minutes[|minutes| - 1];
      var visits := Visits(before, m);
      GrantedByVisits(before, limit, m);
      WindowIsVisit(before, limit);
      LastVisitIs(before, m);
      if last == Some(m) {
        VisitsSnoc(visits, 1, limit);
        if visits != [] {
          var front, x := visits[..|visits| - 1], visits[|visits| - 1];
          assert visits == front + [x];
          VisitsSnoc(front, x, limit);
          VisitsSnoc(front, x + 1, limit);
        }
      }
    }
  }

  lemma NoVisits(limit: nat)
    ensures GrantedOf([], limit) == 0 && Sum([]) == 0
  {
  }

  lemma {:induction false} VisitsBound(visits: seq<nat>, limit: nat)
    requires forall i :: 0 <= i < |visits| ==> visits[i] > 0
    ensures GrantedOf(visits, limit) <= Sum(visits)
    ensures limit > 0 && visits != [] ==> GrantedOf(visits, limit) > 0
    ensures GrantedOf(visits, limit) == Sum(visits) || GrantedOf(visits, limit) >= limit
    ensures GrantedOf(visits, limit) <= limit <==> limit == 0 || |visits| <= 1 || Sum(visits) <= limit
  {
    if visits != [] {
      VisitsBound(visits[..|visits| - 1], limit);
    }
  }

  /** Under a given limit a minute gets no more than the limit exactly when it was visited once or not
      asked for more often than the limit. */
  lemma RateBoundIff(minutes: seq<Option<nat>>, limit: nat, m: nat)
    ensures Granted(minutes, limit, m) <= limit
            <==> limit == 0 || |Visits(minutes, m)| <= 1 || Asked(minutes, m) <= limit
  {
    GrantedByVisits(minutes, limit, m);
    LastVisitIs(minutes, m);
    VisitsBound(Visits(minutes, m), limit);
  }

  ghost predicate NeverBack(minutes: seq<Option<nat>>) {
    forall i, j :: 0 <= i < j < |minutes| && minutes[i].Some? && minutes[j].Some? ==> minutes[i].value <= minutes[j].value
  }

  lemma {:induction false} LatestBelow(minutes: seq<Option<nat>>, bound: nat)
    requires forall i :: 0 <= i < |minutes| && minutes[i].Some? ==> minutes[i].value <= bound
    ensures Latest(minutes) <= bound
  {
    if minutes != [] {
      LatestBelow(minutes[..|minutes| - 1], bound);
    }
  }

  lemma {:induction false} VisitedOnce(minutes: seq<Option<nat>>, m: nat)
    requires NeverBack(minutes)
    ensures |Visits(minutes, m)| <= 1
    ensures Visits(minutes, m) != [] ==> m <= Latest(minutes)
  {
    if minutes != [] {
      var n := |minutes| - 1;
      var before, last := minutes[..n], minutes[n];
      assert forall i :: 0 <= i < n ==> before[i] == minutes[i];
      VisitedOnce(before, m);
      if last.Some? {
        LatestBelow(before, last.value);
      }
    }
  }

  /** A clock that never goes back, with the clock read and the window locked in the same order, grants
      exactly the first reservations of each minute. */
  lemma SteadyClockBounded(minutes: seq<Option<nat>>, limit: nat, m: nat)
    requires NeverBack(minutes)
    ensures Granted(minutes, limit, m) == Min(limit, Asked(minutes, m))
  {
    hide Visits;
    VisitedOnce(minutes, m);
    GrantedByVisits(minutes, limit, m);
    var visits := Visits(minutes, m);
    if visits != [] {
      assert visits[..0] == [];
    }
  }

  /** How many reservations asked for in `span` seconds from `from` on were granted. */
  function GrantedWithin(seconds: seq<nat>, limit: nat, from: nat, span: nat): nat {
    if seconds == [] then 0 else
    var before, last := seconds[..|seconds| - 1], seconds[|seconds| - 1];
    GrantedWithin(before, limit, from, span)
      + if from <= last < from + span && Reserve(WindowAfter(Minutes(before), limit), Some(last / 60), limit).1 then 1 else 0
  }

  function Minutes(seconds: seq<nat>): (minutes: seq<Option<nat>>)
    ensures |minutes| == |seconds| && forall i :: 0 <= i < |seconds| ==> minutes[i] == Some(seconds[i] / 60)
  {
    seq(|seconds|, i requires 0 <= i < |seconds| => Some(seconds[i] / 60))
  }

  lemma {:induction false} WithinTwoMinutes(seconds: seq<nat>, limit: nat, from: nat)
    ensures GrantedWithin(seconds, limit, from, 60)
         <= Granted(Minutes(seconds), limit, from / 60) + Granted(Minutes(seconds), limit, from / 60 + 1)
  {
    if seconds != [] {
      var n := |seconds| - 1;
      WithinTwoMinutes(seconds[..n], limit, from);
      assert Minutes(seconds)[..n] == Minutes(seconds[..n]);
    }
  }

  /** With a clock that never goes back, any sixty seconds hold at most twice the limit. */
  lemma SixtySecondsBounded(seconds: seq<nat>, limit: nat, from: nat)
    requires forall i, j :: 0 <= i < j < |seconds| ==> seconds[i] <= seconds[j]
    ensures GrantedWithin(seconds, limit, from, 60) <= 2 * limit
  {
    hide Granted, GrantedWithin, Asked, Minutes;
    var minutes := Minutes(seconds);
    WithinTwoMinutes(seconds, limit, from);
    forall i, j | 0 <= i < j < |minutes| ensures minutes[i].value <= minutes[j].value {
      assert seconds[i] / 60 <= seconds[j] / 60;
    }
    SteadyClockBounded(minutes, limit, from / 60);
    SteadyClockBounded(minutes, limit, from / 60 + 1);
  }

  /** The clock is read before the lock is taken: a caller that read minute 5 can lock after one
      that read minute 6, and the next caller of minute 6 then finds its count reset. */
  lemma RateOverrun()
    ensures Granted([Some(6), Some(5), Some(6)], 1, 6) == 2
  {
    var all: seq<Option<nat>> := [Some(6), Some(5), Some(6)];
    assert all[..2][..1] == [Some(6)];
    assert WindowAfter(all[..2][..1], 1) == Window(6, 1);
    assert WindowAfter(all[..2], 1) == Window(5, 1);
    assert Granted(all[..2][..1], 1, 6) == 1;
    assert Granted(all[..2], 1, 6) == 1;
  }

  class RateWindow {
    var minute: nat
    var requests: nat
    ghost const limit: nat
    /** The reservations made so far, in the order they took the lock. */
    ghost var history: seq<Option<nat>>

    /** The fields are the current minute and its current visit, cut at the limit. */
    ghost predicate Valid()
      reads this
    {
      minute == Latest(history) && requests == Min(limit, Visit(history))
    }

    constructor (requestsPerMinute: nat)
      ensures Valid() && history == [] && limit == requestsPerMinute
    {
      minute := 0;
      requests := 0;
      limit := requestsPerMinute;
      history := [];
    }

    /** A reservation is granted exactly when fewer than the limit were asked for since the window last
        changed its minute; over the whole history that makes the granted ones `Granted`. */
    method ReserveRateCapacity(elapsedSeconds: Option<nat>, requestsPerMinute: nat) returns (granted: bool)
      requires Valid() && requestsPerMinute == limit
      modifies this
      ensures var clock := if elapsedSeconds == None then None else Some(elapsedSeconds.value / 60);
              && Valid() && history == old(history) + [clock]
              && (granted <==> clock.Some? && (if clock.value == Latest(old(history)) then Visit(old(history)) else 0) < limit)
              && (forall m: nat :: Granted(history, limit, m)
                    == Granted(old(history), limit, m) + (if clock == Some(m) && granted then 1 else 0))
    {
      hide Granted;
      ghost var before := history;
      WindowIsVisit(before, limit);
      if elapsedSeconds == None {
        HistorySnoc(before, None, limit);
        history := history + [None];
        return false;
      }
      var now := elapsedSeconds.value / 60;
      HistorySnoc(before, Some(now), limit);
      history := history + [Some(now)];
      if minute != now {
        minute := now;
        requests := 0;
      }
      if requests >= requestsPerMinute {
        return false;
      }
      requests := requests + 1;
      return true;
    }
  }

  lemma HistorySnoc(before: seq<Option<nat>>, clock: Option<nat>, limit: nat)
    ensures var h := before + [clock];
            && Latest(h) == (if clock.Some? then clock.value else Latest(before))
            && Visit(h) == (if clock.None? then Visit(before) else if clock.value == Latest(before) then Visit(before) + 1 else 1)
            && forall m: nat :: Granted(h, limit, m) == Granted(before, limit, m)
                 + (if clock == Some(m) && Reserve(WindowAfter(before, limit), clock, limit).1 then 1 else 0)
  {
    assert (before + [clock])[..|before|] == before;
  }
}
