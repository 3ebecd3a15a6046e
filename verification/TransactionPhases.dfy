/** The phase machine shared by release updates and provider switches. The two differ in one rule: a
    provider switch may still abort after preparation. */
module TransactionPhases {
  datatype Phase = Scheduled | Prepared | Draining | Stopped | Activated | Starting | Verifying
                 | Committed | Aborted | RollingBack | RolledBack | RecoveryFailed

  predicate IsTerminal(p: Phase) {
    p == Committed || p == Aborted || p == RolledBack || p == RecoveryFailed
  }

  /** Phases in which the recovery helper may be removed. */
  predicate IsRetirable(p: Phase) {
    p == Committed || p == Aborted || p == RolledBack
  }

  predicate ValidTransition(lateAbort: bool, from: Phase, to: Phase) {
    || from == to
    || match from
       case Scheduled => to == Prepared || to == Aborted || to == RecoveryFailed
       case Prepared => to == Draining || (lateAbort && to == Aborted) || to == RollingBack || to == RecoveryFailed
       case Draining => to == Stopped || (lateAbort && to == Aborted) || to == RollingBack || to == RecoveryFailed
       case Stopped => to == Activated || (lateAbort && to == Aborted) || to == RollingBack || to == RecoveryFailed
       case Activated => to == Starting || to == RollingBack || to == RecoveryFailed
       case Starting => to == Verifying || to == RollingBack || to == RecoveryFailed
       case Verifying => to == Committed || to == RollingBack || to == RecoveryFailed
       case RollingBack => to == RolledBack || to == RecoveryFailed
       case _ => false
  }

  /** A sequence of phases each reached from the one before. */
  ghost predicate IsPath(lateAbort: bool, path: seq<Phase>) {
    && path != []
    && forall i :: 0 < i < |path| ==> ValidTransition(lateAbort, path[i - 1], path[i])
  }

  ghost predicate Reaches(lateAbort: bool, from: Phase, to: Phase) {
    exists path :: IsPath(lateAbort, path) && path[0] == from && path[|path| - 1] == to
  }

  lemma ReachesSelf(lateAbort: bool, p: Phase)
    ensures Reaches(lateAbort, p, p)
  {
    assert IsPath(lateAbort, [p]);
  }

  lemma ReachesStep(lateAbort: bool, from: Phase, middle: Phase, to: Phase)
    requires Reaches(lateAbort, from, middle) && ValidTransition(lateAbort, middle, to)
    ensures Reaches(lateAbort, from, to)
  {
    var path :| IsPath(lateAbort, path) && path[0] == from && path[|path| - 1] == middle;
    var longer := path + [to];
    assert forall i :: 0 <= i < |path| ==> longer[i] == path[i];
    assert IsPath(lateAbort, longer) && longer[0] == from && longer[|longer| - 1] == to;
  }

  /** How far along a phase is on the way to a commit. */
  function Rank(p: Phase): nat {
    match p
    case Scheduled => 0
    case Prepared => 1
    case Draining => 2
    case Stopped => 3
    case Activated => 4
    case Starting => 5
    case Verifying => 6
    case RollingBack => 7
    case _ => 8
  }

  lemma {:induction false} PathProgress(lateAbort: bool, path: seq<Phase>)
    requires IsPath(lateAbort, path)
    ensures var a, b := path[0], path[|path| - 1];
            && (a == b || Rank(a) < Rank(b))
            && (IsTerminal(a) ==> b == a)
            && (Rank(a) >= 4 && b == Aborted ==> a == Aborted)
            && (a == RollingBack ==> b == RollingBack || b == RolledBack || b == RecoveryFailed)
    decreases |path|
  {
    var n := |path| - 1;
    if n > 0 {
      var before := path[..n];
      assert forall i :: 0 <= i < n ==> before[i] == path[i];
      PathProgress(lateAbort, before);
      assert ValidTransition(lateAbort, path[n - 1], path[n]);
    }
  }

  /** No run of transitions goes back: it stays or moves up in rank, ended transactions stay ended,
      nothing aborts once the candidate was activated, and a rollback never turns into a commit. */
  lemma NeverBack(lateAbort: bool, a: Phase, b: Phase)
    requires Reaches(lateAbort, a, b)
    ensures a == b || Rank(a) < Rank(b)
    ensures IsTerminal(a) ==> b == a
    ensures Rank(a) >= 4 && b == Aborted ==> a == Aborted
    ensures a == RollingBack ==> b == RollingBack || b == RolledBack || b == RecoveryFailed
    ensures Reaches(lateAbort, b, a) ==> a == b
  {
    var path :| IsPath(lateAbort, path) && path[0] == a && path[|path| - 1] == b;
    PathProgress(lateAbort, path);
    if Reaches(lateAbort, b, a) {
      var back :| IsPath(lateAbort, back) && back[0] == b && back[|back| - 1] == a;
      PathProgress(lateAbort, back);
    }
  }

  /** The path with repeated persists of the same phase removed. */
  function Dedup(path: seq<Phase>): seq<Phase> {
    if |path| <= 1 then path
    else if path[|path| - 1] == path[|path| - 2] then Dedup(path[..|path| - 1])
    else Dedup(path[..|path| - 1]) + [path[|path| - 1]]
  }

  /** The phases on the way to `p`, a phase a transaction passes before its rollback or end. */
  function CommitOrder(p: Phase): seq<Phase> {
    match p
    case Prepared => [Scheduled, Prepared]
    case Draining => [Scheduled, Prepared, Draining]
    case Stopped => [Scheduled, Prepared, Draining, Stopped]
    case Activated => [Scheduled, Prepared, Draining, Stopped, Activated]
    case Starting => [Scheduled, Prepared, Draining, Stopped, Activated, Starting]
    case Verifying => [Scheduled, Prepared, Draining, Stopped, Activated, Starting, Verifying]
    case Committed => [Scheduled, Prepared, Draining, Stopped, Activated, Starting, Verifying, Committed]
    case _ => [Scheduled]
  }

  lemma CommitOrderStep(lateAbort: bool, from: Phase, to: Phase)
    requires ValidTransition(lateAbort, from, to) && from != to && (Rank(to) <= 6 || to == Committed)
    ensures CommitOrder(to) == CommitOrder(from) + [to]
    ensures Rank(from) <= 6
  {
  }

  /** Apart from repetitions, there is one way from scheduling to any forward phase: a committed
      transaction went through all eight phases in order. */
  lemma {:induction false} CommittedInOrder(lateAbort: bool, path: seq<Phase>)
    requires IsPath(lateAbort, path) && path[0] == Scheduled
    requires Rank(path[|path| - 1]) <= 6 || path[|path| - 1] == Committed
    ensures Dedup(path) == CommitOrder(path[|path| - 1])
    decreases |path|
  {
    hide ValidTransition, CommitOrder;
    var n := |path| - 1;
    if n == 0 {
      assert path == [Scheduled];
      FirstPhase();
    } else {
      var before, p := path[..n], path[n];
      assert forall i :: 0 <= i < n ==> before[i] == path[i];
      if path[n - 1] != p {
        CommitOrderStep(lateAbort, path[n - 1], p);
      }
      CommittedInOrder(lateAbort, before);
    }
  }

  lemma FirstPhase()
    ensures CommitOrder(Scheduled) == [Scheduled]
  {
  }

  /** From every phase some terminal phase can still be reached. */
  lemma TerminalReachable(lateAbort: bool, p: Phase)
    ensures exists t :: IsTerminal(t) && Reaches(lateAbort, p, t)
  {
    ReachesSelf(lateAbort, p);
    if !IsTerminal(p) {
      ReachesStep(lateAbort, p, p, RecoveryFailed);
    }
  }
}
