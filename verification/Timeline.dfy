/** The workbench's recent timeline: paged catch-up over a log that only grows. */
module Timeline {
  import opened Basics

  const MAXIMUM_RECENT_EVENTS: nat := 500
  const INITIAL_CURSOR_WINDOW: nat := 10_000
  const PAGE_LIMIT: nat := 1_000
  const MAXIMUM_PAGES: nat := 10

  datatype Event = Event(cursor: nat, kind: string)

  predicate Ordered(log: seq<Event>) {
    forall i, j :: 0 <= i < j < |log| ==> log[i].cursor < log[j].cursor
  }

  /** The events past a cursor. */
  function After(log: seq<Event>, cursor: nat): seq<Event> {
    if log == [] then []
    else if log[0].cursor > cursor then log
    else After(log[1..], cursor)
  }

  // ----- Pages -------------------------------------------------------------------------------------

  datatype Page = Page(events: seq<Event>, highWatermark: nat, hasMore: bool)

  /** The server's answer: up to a limit in cursor order, and whether there are more. */
  function ServePage(log: seq<Event>, after: nat): Page {
    var rest := After(log, after);
    Page(rest[..Min(PAGE_LIMIT, |rest|)], HighWatermark(log), |rest| > PAGE_LIMIT)
  }

  function HighWatermark(log: seq<Event>): nat {
    if log == [] then 0 else log[|log| - 1].cursor
  }

  /** The client's check of a page. */
  predicate ValidPage(page: Page, after: nat) {
    && |page.events| <= PAGE_LIMIT
    && (page.hasMore ==> page.events != [])
    && (page.events != [] ==>
          after < page.events[0].cursor && page.events[|page.events| - 1].cursor <= page.highWatermark)
    && forall i :: 0 <= i < |page.events| - 1 ==> page.events[i].cursor < page.events[i + 1].cursor
  }

  lemma {:induction false} AfterIsSuffix(log: seq<Event>, cursor: nat)
    requires Ordered(log)
    ensures |After(log, cursor)| <= |log| && After(log, cursor) == log[|log| - |After(log, cursor)|..]
    ensures forall i :: |log| - |After(log, cursor)| <= i < |log| ==> log[i].cursor > cursor
    ensures forall i :: 0 <= i < |log| - |After(log, cursor)| ==> log[i].cursor <= cursor
  {
    if log != [] && log[0].cursor <= cursor {
      AfterIsSuffix(log[1..], cursor);
    }
  }

  /** The events past a cursor are exactly the suffix that splits the log at it. */
  lemma AfterIs(log: seq<Event>, cursor: nat, n: nat)
    requires Ordered(log) && n <= |log|
    requires (n > 0 ==> log[n - 1].cursor <= cursor) && (n < |log| ==> log[n].cursor > cursor)
    ensures After(log, cursor) == log[n..]
  {
    AfterIsSuffix(log, cursor);
  }

  /** Continuing from the last event of a piece gives the rest. */
  lemma AfterContinues(log: seq<Event>, start: nat, m: nat)
    requires Ordered(log) && 0 < m <= |After(log, start)|
    ensures After(log, After(log, start)[m - 1].cursor) == After(log, start)[m..]
  {
    AfterIsSuffix(log, start);
    var n := |log| - |After(log, start)| + m;
    assert After(log, start)[m - 1] == log[n - 1];
    AfterIs(log, log[n - 1].cursor, n);
  }

  /** A log that grew only adds to what follows a cursor. */
  lemma AfterGrows(log: seq<Event>, more: seq<Event>, start: nat)
    requires Ordered(more) && log <= more
    ensures After(log, start) <= After(more, start)
  {
  }

  /** The server's pages always pass the client's check. */
  lemma ServedPageValid(log: seq<Event>, after: nat)
    requires Ordered(log)
    ensures ValidPage(ServePage(log, after), after)
  {
    AfterIsSuffix(log, after);
    var n := |log| - |After(log, after)|;
    var page := ServePage(log, after);
    assert forall i :: 0 <= i < |page.events| ==> page.events[i] == log[n + i];
  }

  // ----- The held window -----------------------------------------------------------------------------

  function Recent(events: seq<Event>): seq<Event> {
    if |events| > MAXIMUM_RECENT_EVENTS then events[|events| - MAXIMUM_RECENT_EVENTS..] else events
  }

  lemma RecentAppend(a: seq<Event>, b: seq<Event>)
    ensures Recent(Recent(a) + b) == Recent(a + b)
  {
    if |a| > MAXIMUM_RECENT_EVENTS {
      var cut := |a| - MAXIMUM_RECENT_EVENTS;
      assert a[cut..] + b == (a + b)[cut..];
      RecentDrop(a + b, cut);
    }
  }

  lemma RecentDrop(s: seq<Event>, cut: nat)
    requires cut + MAXIMUM_RECENT_EVENTS <= |s|
    ensures Recent(s[cut..]) == Recent(s)
  {
  }

  lemma RecentLast(events: seq<Event>)
    requires events != []
    ensures Recent(events) != [] && Recent(events)[|Recent(events)| - 1] == events[|events| - 1]
  {
  }

  // ----- One refresh ---------------------------------------------------------------------------------------

  ghost predicate Growing(logs: seq<seq<Event>>) {
    && |logs| == MAXIMUM_PAGES
    && (forall i :: 0 <= i < |logs| ==> Ordered(logs[i]))
    && (forall i, j :: 0 <= i <= j < |logs| ==> logs[i] <= logs[j])
  }

  /** Page `k` is the first that reaches the end of the log as it then is. */
  ghost predicate EndsAt(logs: seq<seq<Event>>, start: nat, k: nat)
    requires |logs| == MAXIMUM_PAGES
  {
    && k < MAXIMUM_PAGES
    && |After(logs[k], start)| <= PAGE_LIMIT * (k + 1)
    && forall i :: 0 <= i < k ==> |After(logs[i], start)| > PAGE_LIMIT * (i + 1)
  }

  /** None of the first `k` pages reaches the end. */
  ghost predicate ContinuesFor(logs: seq<seq<Event>>, start: nat, k: nat)
    requires |logs| == MAXIMUM_PAGES && k <= MAXIMUM_PAGES
  {
    forall i :: 0 <= i < k ==> |After(logs[i], start)| > PAGE_LIMIT * (i + 1)
  }

  /** Where a first refresh starts. */
  function Since(latest: nat): nat {
    if latest < INITIAL_CURSOR_WINDOW then 0 else latest - INITIAL_CURSOR_WINDOW
  }

  function Start(timeline: seq<Event>, timelineAfter: nat, latest: nat, force: bool): nat {
    if force || timeline == [] then Since(latest) else timelineAfter
  }

  predicate ChangesTranscript(e: Event) {
    e.kind == "message.assistant.final" || e.kind == "task.succeeded"
  }

  ghost predicate AnyChange(events: seq<Event>) {
    exists e :: e in events && ChangesTranscript(e)
  }

  /** What the client holds after `k` pages. */
  ghost function HeldAfter(held: seq<Event>, logs: seq<seq<Event>>, start: nat, k: nat): seq<Event>
    requires |logs| == MAXIMUM_PAGES && k <= MAXIMUM_PAGES && ContinuesFor(logs, start, k)
  {
    if k == 0 then Recent(held) else Recent(held + After(logs[k - 1], start)[..PAGE_LIMIT * k])
  }

  /** A view of the timeline and the cursor it will continue from. */
  datatype View = View(timeline: seq<Event>, after: nat)

  /** One refresh: `logs[k]` is the session's log when page `k` is served, and the request for page `failAt`
      fails. */
  datatype Attempt = Attempt(latest: nat, force: bool, logs: seq<seq<Event>>, failAt: nat)

  function Held(before: View, a: Attempt): seq<Event> {
    if a.force then [] else before.timeline
  }

  function StartOf(before: View, a: Attempt): nat {
    Start(before.timeline, before.after, a.latest, a.force)
  }

  /** The refresh ended with page `k`, the first that reaches the end of the log: the view holds the latest
      events of what was held and all that followed the start. */
  ghost predicate Succeeded(before: View, a: Attempt, k: nat, now: View)
    requires |a.logs| == MAXIMUM_PAGES
  {
    && k < a.failAt && EndsAt(a.logs, StartOf(before, a), k)
    && now.timeline == Recent(Held(before, a) + After(a.logs[k], StartOf(before, a)))
    && now.after == (if now.timeline != [] then now.timeline[|now.timeline| - 1].cursor
                     else Min(HighWatermark(a.logs[k]), a.latest))
  }

  /** The refresh failed at a request or after ten pages: the full pages it got are held, and the cursor is
      where it was. */
  ghost predicate Failed(before: View, a: Attempt, now: View)
    requires |a.logs| == MAXIMUM_PAGES
  {
    var k := if a.failAt < MAXIMUM_PAGES then a.failAt else MAXIMUM_PAGES;
    && ContinuesFor(a.logs, StartOf(before, a), k)
    && now.timeline == HeldAfter(Held(before, a), a.logs, StartOf(before, a), k)
    && now.after == before.after
  }

  class Workbench {
    var timeline: seq<Event>
    var timelineAfter: nat

    function Shown(): View
      reads this
    {
      View(timeline, timelineAfter)
    }

    method AppendPage(events: seq<Event>)
      modifies this`timeline
      ensures timeline == Recent(old(timeline) + events) && |timeline| <= MAXIMUM_RECENT_EVENTS
    {
      timeline := timeline + events;
      if |timeline| > MAXIMUM_RECENT_EVENTS {
        timeline := timeline[|timeline| - MAXIMUM_RECENT_EVENTS..];
      }
    }

    /** Ends with the first page that reaches the end of the log, or fails as `Failed` says. */
    method RefreshTimeline(latest: nat, force: bool, logs: seq<seq<Event>>, failAt: nat) returns (r: Option<bool>)
      requires Growing(logs) && |timeline| <= MAXIMUM_RECENT_EVENTS
      modifies this
      ensures |timeline| <= MAXIMUM_RECENT_EVENTS
      ensures var a := Attempt(latest, force, logs, failAt);
              match r
              case Some(changed) =>
                exists k: nat :: && Succeeded(old(Shown()), a, k, Shown())
                                 && changed == AnyChange(After(logs[k], StartOf(old(Shown()), a)))
              case None => Failed(old(Shown()), a, Shown())
    {
      hide After, Recent, AnyChange, Ordered, HeldAfter, ChangedAfter, Remaining, ContinuesFor, EndsAt, Growing, ServePage, ValidPage;
      ghost var held := if force then [] else timeline;
      ghost var start := Start(timeline, timelineAfter, latest, force);
      var after: nat := timelineAfter;
      if force || timeline == [] {
        timeline := [];
        after := Since(latest);
      }
      var changed := false;
      var page: nat := 0;
      FirstPage(held, logs, start);
      while page < MAXIMUM_PAGES
        invariant page <= MAXIMUM_PAGES && page <= failAt
        invariant |timeline| <= MAXIMUM_RECENT_EVENTS
        invariant timelineAfter == old(timelineAfter)
        invariant ContinuesFor(logs, start, page)
        invariant timeline == HeldAfter(held, logs, start, page)
        invariant changed == ChangedAfter(logs, start, page)
        invariant page < MAXIMUM_PAGES ==> After(logs[page], after) == Remaining(logs, start, page)
      {
        if page == failAt {
          return None;
        }
        var response := ServePage(logs[page], after);
        PageStep(held, logs, start, page, after);
        if !ValidPage(response, after) {
          return None;
        }
        var pageChanged := Changes(response.events);
        changed := changed || pageChanged;
        AppendPage(response.events);
        if timeline != [] {
          after := timeline[|timeline| - 1].cursor;
        } else {
          after := Min(response.highWatermark, latest);
        }
        if !response.hasMore {
          timelineAfter := after;
          return Some(changed);
        }
        page := page + 1;
      }
      return None;
    }
  }

  /** Whether the events of the first `k` pages change the transcript. */
  ghost predicate ChangedAfter(logs: seq<seq<Event>>, start: nat, k: nat)
    requires |logs| == MAXIMUM_PAGES && k <= MAXIMUM_PAGES && ContinuesFor(logs, start, k)
  {
    k > 0 && AnyChange(After(logs[k - 1], start)[..PAGE_LIMIT * k])
  }

  lemma FirstPage(held: seq<Event>, logs: seq<seq<Event>>, start: nat)
    requires Growing(logs) && |held| <= MAXIMUM_RECENT_EVENTS
    ensures |logs| == MAXIMUM_PAGES && ContinuesFor(logs, start, 0)
    ensures HeldAfter(held, logs, start, 0) == held
    ensures !ChangedAfter(logs, start, 0)
    ensures After(logs[0], start) == Remaining(logs, start, 0)
  {
  }

  /** One page: it is valid, and extends what is held to its end. */
  lemma PageStep(held: seq<Event>, logs: seq<seq<Event>>, start: nat, k: nat, after: nat)
    requires Growing(logs) && k < MAXIMUM_PAGES && ContinuesFor(logs, start, k)
    requires After(logs[k], after) == Remaining(logs, start, k)
    ensures var page := ServePage(logs[k], after);
            var now := Recent(HeldAfter(held, logs, start, k) + page.events);
            var changed := ChangedAfter(logs, start, k) || AnyChange(page.events);
            && ValidPage(page, after)
            && page.highWatermark == HighWatermark(logs[k])
            && (page.hasMore ==>
                  && ContinuesFor(logs, start, k + 1)
                  && now == HeldAfter(held, logs, start, k + 1) != []
                  && changed == ChangedAfter(logs, start, k + 1)
                  && (k + 1 < MAXIMUM_PAGES ==>
                        After(logs[k + 1], now[|now| - 1].cursor) == Remaining(logs, start, k + 1)))
            && (!page.hasMore ==>
                  && EndsAt(logs, start, k)
                  && now == Recent(held + After(logs[k], start))
                  && changed == AnyChange(After(logs[k], start)))
  {
    hide After, Recent, AnyChange, Remaining, Ordered;
    var page, all := ServePage(logs[k], after), After(logs[k], start);
    ServedPageValid(logs[k], after);
    PageJoins(held, logs, start, k);
    ChangeJoins(logs, start, k);
    if page.hasMore {
      NextPage(held, logs, start, k);
    } else {
      assert all[..|all|] == all;
    }
  }

  /** What is still to come before page `k`. */
  ghost function Remaining(logs: seq<seq<Event>>, start: nat, k: nat): seq<Event>
    requires Growing(logs) && k < MAXIMUM_PAGES && ContinuesFor(logs, start, k)
  {
    if k > 0 then AfterGrows(logs[k - 1], logs[k], start); After(logs[k], start)[PAGE_LIMIT * k..] else After(logs[k], start)
  }

  method Changes(events: seq<Event>) returns (r: bool)
    ensures r == AnyChange(events)
  {
    r := false;
    for i := 0 to |events|
      invariant r == AnyChange(events[..i])
    {
      assert events[..i + 1] == events[..i] + [events[i]];
      r := r || ChangesTranscript(events[i]);
    }
    assert events[..|events|] == events;
  }

  /** Adding page `k` to what is held gives everything up to its end. */
  lemma PageJoins(held: seq<Event>, logs: seq<seq<Event>>, start: nat, k: nat)
    requires Growing(logs) && k < MAXIMUM_PAGES && ContinuesFor(logs, start, k)
    ensures var rest := Remaining(logs, start, k);
            var all := After(logs[k], start);
            var events := rest[..Min(PAGE_LIMIT, |rest|)];
            && (|rest| > PAGE_LIMIT <==> |all| > PAGE_LIMIT * (k + 1))
            && Recent(HeldAfter(held, logs, start, k) + events)
               == Recent(held + all[..Min(PAGE_LIMIT * (k + 1), |all|)])
  {
    hide After, Recent;
    var rest, all := Remaining(logs, start, k), After(logs[k], start);
    var events := rest[..Min(PAGE_LIMIT, |rest|)];
    if k == 0 {
      RecentAppend(held, events);
    } else {
      var before := After(logs[k - 1], start)[..PAGE_LIMIT * k];
      AfterGrows(logs[k - 1], logs[k], start);
      assert before == all[..PAGE_LIMIT * k];
      RecentAppend(held + before, events);
      assert (held + before) + events == held + all[..Min(PAGE_LIMIT * (k + 1), |all|)];
    }
  }

  lemma ChangeJoins(logs: seq<seq<Event>>, start: nat, k: nat)
    requires Growing(logs) && k < MAXIMUM_PAGES && ContinuesFor(logs, start, k)
    ensures var rest := Remaining(logs, start, k);
            var all := After(logs[k], start);
            var before := if k == 0 then false else AnyChange(After(logs[k - 1], start)[..PAGE_LIMIT * k]);
            (before || AnyChange(rest[..Min(PAGE_LIMIT, |rest|)])) == AnyChange(all[..Min(PAGE_LIMIT * (k + 1), |all|)])
  {
    hide After;
    var rest, all := Remaining(logs, start, k), After(logs[k], start);
    if k > 0 {
      AfterGrows(logs[k - 1], logs[k], start);
      assert After(logs[k - 1], start)[..PAGE_LIMIT * k] == all[..PAGE_LIMIT * k];
      assert all[..Min(PAGE_LIMIT * (k + 1), |all|)] == all[..PAGE_LIMIT * k] + rest[..Min(PAGE_LIMIT, |rest|)];
    }
  }

  /** Once page `k` was full, the last event held is where the next page continues. */
  lemma NextPage(held: seq<Event>, logs: seq<seq<Event>>, start: nat, k: nat)
    requires Growing(logs) && k < MAXIMUM_PAGES && ContinuesFor(logs, start, k + 1)
    ensures var now := HeldAfter(held, logs, start, k + 1);
            && now != []
            && (k + 1 < MAXIMUM_PAGES ==>
                  After(logs[k + 1], now[|now| - 1].cursor) == Remaining(logs, start, k + 1))
  {
    hide After, Recent;
    var all, m := After(logs[k], start), PAGE_LIMIT * (k + 1);
    RecentLast(held + all[..m]);
    if k + 1 < MAXIMUM_PAGES {
      AfterGrows(logs[k], logs[k + 1], start);
      assert all[m - 1] == After(logs[k + 1], start)[m - 1];
      AfterContinues(logs[k + 1], start, m);
    }
  }

  // ----- What the user sees ---------------------------------------------------------------------------------

  /** The latest events of the log, without gaps or repetitions. */
  predicate IsTail(window: seq<Event>, log: seq<Event>) {
    |window| <= |log| && window == log[|log| - |window|..]
  }

  /** The view shows the latest events of the log, the latest 500 or all within the initial cursor window,
      and continues from their end. */
  ghost predicate Current(v: View, log: seq<Event>, latest: nat) {
    && IsTail(v.timeline, log)
    && |v.timeline| >= Min(MAXIMUM_RECENT_EVENTS, |After(log, Since(latest))|)
    && (v.timeline != [] ==> v.after == v.timeline[|v.timeline| - 1].cursor)
  }

  lemma RecentTail(events: seq<Event>, log: seq<Event>)
    requires IsTail(events, log)
    ensures IsTail(Recent(events), log)
  {
  }

  lemma AfterTail(log: seq<Event>, start: nat)
    requires Ordered(log)
    ensures IsTail(After(log, start), log)
  {
    hide After;
    AfterIsSuffix(log, start);
  }

  /** A tail of the earlier log followed by everything past its end is a tail of the later one. */
  lemma ContinuedTail(held: seq<Event>, earlier: seq<Event>, log: seq<Event>)
    requires Ordered(log) && earlier <= log && IsTail(held, earlier) && held != []
    ensures IsTail(held + After(log, held[|held| - 1].cursor), log)
  {
    hide After;
    var n, m := |earlier|, |earlier| - |held|;
    assert held[|held| - 1] == earlier[n - 1] == log[n - 1];
    AfterIs(log, log[n - 1].cursor, n);
    assert held == log[m..n];
    assert log[m..n] + log[n..] == log[m..];
  }

  // ----- Runs of refreshes, failed ones included --------------------------------------------------------------

  ghost predicate Attempted(before: View, a: Attempt, now: View)
    requires |a.logs| == MAXIMUM_PAGES
  {
    Failed(before, a, now) || exists k: nat :: Succeeded(before, a, k, now)
  }

  /** The refreshes of a session since it was selected, which clears the view. Only a view just cleared is
      refreshed by force; the log and the latest cursor of the session never go back. */
  ghost predicate Session(views: seq<View>, attempts: seq<Attempt>) {
    && |views| == |attempts| + 1 && views[0] == View([], 0)
    && (forall i :: 0 <= i < |attempts| ==> Growing(attempts[i].logs))
    && (forall i :: 0 <= i < |attempts| ==> Attempted(views[i], attempts[i], views[i + 1]))
    && (forall i :: 0 <= i < |attempts| && attempts[i].force ==> views[i] == View([], 0))
    && (forall i :: 0 < i < |attempts| ==> Follows(attempts[i - 1], attempts[i]))
  }

  ghost predicate Follows(a: Attempt, b: Attempt) {
    a.latest <= b.latest && a.logs != [] && b.logs != [] && a.logs[|a.logs| - 1] <= b.logs[0]
  }

  /** What every refresh leaves: an empty view with its cursor before the initial window, or the current view of
      an earlier log, or more than a page of events past the cursor. */
  ghost predicate Resumable(v: View, log: seq<Event>, latest: nat) {
    || (v.timeline == [] && v.after <= Since(latest))
    || WasCurrent(v, log, latest)
    || (v.timeline != [] && |After(log, v.after)| > PAGE_LIMIT)
  }

  ghost predicate WasCurrent(v: View, log: seq<Event>, latest: nat) {
    v.timeline != [] && exists earlier :: earlier <= log && Current(v, earlier, latest)
  }

  /** An earlier cursor is followed by at least as many events. */
  lemma AfterLater(log: seq<Event>, a: nat, b: nat)
    requires Ordered(log) && a <= b
    ensures |After(log, a)| >= |After(log, b)|
  {
    hide After, Ordered;
    AfterIsSuffix(log, a);
    AfterIsSuffix(log, b);
    var m := |log| - |After(log, b)|;
    assert m < |log| ==> log[m].cursor > b;
  }

  /** New events add no more than the log grew by. */
  lemma AfterAdds(earlier: seq<Event>, log: seq<Event>, start: nat)
    requires Ordered(log) && earlier <= log
    ensures |After(log, start)| <= |After(earlier, start)| + |log| - |earlier|
  {
    hide After, Ordered;
    assert Ordered(earlier) by { PrefixOrdered(earlier, log); }
    AfterIsSuffix(earlier, start);
    AfterIsSuffix(log, start);
    var n := |earlier| - |After(earlier, start)|;
    assert n > 0 ==> log[n - 1] == earlier[n - 1] && log[n - 1].cursor <= start;
  }

  lemma PrefixOrdered(earlier: seq<Event>, log: seq<Event>)
    requires Ordered(log) && earlier <= log
    ensures Ordered(earlier)
  {
    assert forall i :: 0 <= i < |earlier| ==> earlier[i] == log[i];
  }

  /** A refresh that succeeds from a resumable view shows the current one. */
  lemma SuccessCurrent(before: View, log: seq<Event>, latest: nat, a: Attempt, k: nat, now: View)
    requires Growing(a.logs) && log <= a.logs[0] && latest <= a.latest && (a.force ==> before.timeline == [])
    requires Resumable(before, log, latest) && Succeeded(before, a, k, now)
    ensures Current(now, a.logs[k], a.latest)
  {
    hide After, Ordered, IsTail, Recent, Current;
    var held, start, end := before.timeline, StartOf(before, a), a.logs[k];
    var added := After(end, start);
    assert now.timeline == Recent(held + added);
    assert log <= end;
    if before.timeline == [] {
      EmptyBecomesCurrent(end, a.latest, now);
    } else if WasCurrent(before, log, latest) {
      var earlier :| earlier <= log && Current(before, earlier, latest);
      CurrentContinues(before, earlier, latest, end, a.latest, now);
    } else {
      AfterGrows(log, end, start);
      ManyAdded(held, end, start, a.latest, now);
    }
  }

  lemma EmptyBecomesCurrent(log: seq<Event>, latest: nat, now: View)
    requires Ordered(log) && now.timeline == Recent([] + After(log, Since(latest)))
    requires now.timeline != [] ==> now.after == now.timeline[|now.timeline| - 1].cursor
    ensures Current(now, log, latest)
  {
    hide After, Ordered, IsTail;
    AfterTail(log, Since(latest));
    assert [] + After(log, Since(latest)) == After(log, Since(latest));
    RecentTail(After(log, Since(latest)), log);
  }

  lemma CurrentContinues(before: View, earlier: seq<Event>, latest: nat, log: seq<Event>, later: nat, now: View)
    requires Ordered(log) && earlier <= log && latest <= later && before.timeline != [] && Current(before, earlier, latest)
    requires now.timeline == Recent(before.timeline + After(log, before.after))
    requires now.timeline != [] ==> now.after == now.timeline[|now.timeline| - 1].cursor
    ensures Current(now, log, later)
  {
    hide After, Ordered, IsTail;
    ContinuedTail(before.timeline, earlier, log);
    RecentTail(before.timeline + After(log, before.after), log);
    AfterLater(log, Since(latest), Since(later));
    AfterAdds(earlier, log, Since(latest));
    ContinuedLength(before.timeline, earlier, log);
  }

  lemma ContinuedLength(held: seq<Event>, earlier: seq<Event>, log: seq<Event>)
    requires Ordered(log) && earlier <= log && IsTail(held, earlier) && held != []
    ensures |After(log, held[|held| - 1].cursor)| == |log| - |earlier|
  {
    hide After;
    var n := |earlier|;
    assert held[|held| - 1] == earlier[n - 1] == log[n - 1];
    AfterIs(log, log[n - 1].cursor, n);
  }

  lemma ManyAdded(held: seq<Event>, log: seq<Event>, start: nat, latest: nat, now: View)
    requires Ordered(log) && |After(log, start)| >= MAXIMUM_RECENT_EVENTS
    requires now.timeline == Recent(held + After(log, start))
    requires now.timeline != [] ==> now.after == now.timeline[|now.timeline| - 1].cursor
    ensures Current(now, log, latest)
  {
    hide After, Ordered, IsTail;
    AfterTail(log, start);
    RecentSplit(held, After(log, start));
    RecentTail(After(log, start), log);
  }

  lemma SuccessResumable(before: View, log: seq<Event>, latest: nat, a: Attempt, k: nat, now: View)
    requires Growing(a.logs) && log <= a.logs[0] && latest <= a.latest && (a.force ==> before.timeline == [])
    requires Resumable(before, log, latest) && Succeeded(before, a, k, now)
    ensures Resumable(now, a.logs[MAXIMUM_PAGES - 1], a.latest)
  {
    hide After, Ordered, Current, Recent;
    SuccessCurrent(before, log, latest, a, k, now);
    if now.timeline == [] {
      NothingShown(before, a, k, now);
    } else {
      assert a.logs[k] <= a.logs[MAXIMUM_PAGES - 1];
    }
  }

  lemma NothingShown(before: View, a: Attempt, k: nat, now: View)
    requires Growing(a.logs) && (a.force ==> before.timeline == []) && Succeeded(before, a, k, now) && now.timeline == []
    ensures now.after <= Since(a.latest)
  {
    hide After, Ordered;
    AfterIsSuffix(a.logs[k], StartOf(before, a));
  }

  lemma FailureResumable(before: View, log: seq<Event>, latest: nat, a: Attempt, now: View)
    requires Growing(a.logs) && log <= a.logs[0] && latest <= a.latest && (a.force ==> before.timeline == [])
    requires Resumable(before, log, latest) && Failed(before, a, now)
    ensures Resumable(now, a.logs[MAXIMUM_PAGES - 1], a.latest)
  {
    hide After, Ordered, Current, Recent, IsTail;
    var last := a.logs[MAXIMUM_PAGES - 1];
    if a.failAt == 0 {
      NoPage(before, log, latest, a, now);
    } else {
      var start := StartOf(before, a);
      assert before.after <= start && |After(a.logs[0], start)| > PAGE_LIMIT;
      AfterLater(a.logs[0], before.after, start);
      AfterGrows(a.logs[0], last, before.after);
      FailedHolds(before, a, now);
    }
  }

  /** A refresh that got a page before it failed leaves a window with something in it. */
  lemma FailedHolds(before: View, a: Attempt, now: View)
    requires Growing(a.logs) && a.failAt > 0 && Failed(before, a, now)
    ensures now.timeline != [] && |After(a.logs[0], StartOf(before, a))| > PAGE_LIMIT
  {
    hide After, Ordered;
  }

  /** A refresh that got no page leaves what was held. */
  lemma NoPage(before: View, log: seq<Event>, latest: nat, a: Attempt, now: View)
    requires Growing(a.logs) && log <= a.logs[0] && latest <= a.latest && (a.force ==> before.timeline == [])
    requires Resumable(before, log, latest) && Failed(before, a, now) && a.failAt == 0
    ensures Resumable(now, a.logs[MAXIMUM_PAGES - 1], a.latest)
  {
    hide After, Ordered, Current, Recent, IsTail;
    var last := a.logs[MAXIMUM_PAGES - 1];
    assert now.timeline == Recent(before.timeline);
    assert log <= last;
    if before.timeline == [] {
      assert now.timeline == [] by { RecentEmpty(); }
    } else if WasCurrent(before, log, latest) {
      var earlier :| earlier <= log && Current(before, earlier, latest);
      PrefixOrdered(earlier, last);
      RecentLast(before.timeline);
      RecentCurrent(before, earlier, latest, a.latest, now);
    } else {
      RecentLast(before.timeline);
      AfterGrows(log, last, before.after);
    }
  }

  lemma RecentEmpty()
    ensures Recent([]) == []
  {
  }

  lemma RecentCurrent(before: View, log: seq<Event>, latest: nat, later: nat, now: View)
    requires Ordered(log) && latest <= later && before.timeline != [] && Current(before, log, latest)
    requires now == View(Recent(before.timeline), before.after)
    ensures Current(now, log, later)
  {
    hide After, Ordered, IsTail;
    RecentTail(before.timeline, log);
    AfterLater(log, Since(latest), Since(later));
    RecentLast(before.timeline);
  }

  lemma AttemptResumable(before: View, log: seq<Event>, latest: nat, a: Attempt, now: View)
    requires Growing(a.logs) && log <= a.logs[0] && latest <= a.latest && (a.force ==> before.timeline == [])
    requires Resumable(before, log, latest) && Attempted(before, a, now)
    ensures Resumable(now, a.logs[MAXIMUM_PAGES - 1], a.latest)
  {
    hide Resumable, Failed, Succeeded, Ordered;
    if Failed(before, a, now) {
      FailureResumable(before, log, latest, a, now);
    } else {
      var k: nat :| Succeeded(before, a, k, now);
      SuccessResumable(before, log, latest, a, k, now);
    }
  }

  /** The log and the latest cursor before refresh `i`. */
  ghost function LogBefore(attempts: seq<Attempt>, i: nat): seq<Event>
    requires i <= |attempts| && (i > 0 ==> attempts[i - 1].logs != [])
  {
    if i == 0 then [] else attempts[i - 1].logs[|attempts[i - 1].logs| - 1]
  }

  ghost function LatestBefore(attempts: seq<Attempt>, i: nat): nat
    requires i <= |attempts|
  {
    if i == 0 then 0 else attempts[i - 1].latest
  }

  lemma {:induction false} EveryViewResumable(views: seq<View>, attempts: seq<Attempt>, i: nat)
    requires Session(views, attempts) && i <= |attempts|
    ensures i > 0 ==> attempts[i - 1].logs != []
    ensures Resumable(views[i], LogBefore(attempts, i), LatestBefore(attempts, i))
  {
    hide Resumable, Attempted, Ordered;
    if i == 0 {
      StartsResumable();
    } else {
      EveryViewResumable(views, attempts, i - 1);
      StepFollows(views, attempts, i - 1);
      AttemptResumable(views[i - 1], LogBefore(attempts, i - 1), LatestBefore(attempts, i - 1), attempts[i - 1], views[i]);
    }
  }

  lemma StartsResumable()
    ensures Resumable(View([], 0), [], 0)
  {
  }

  lemma StepFollows(views: seq<View>, attempts: seq<Attempt>, i: nat)
    requires Session(views, attempts) && i < |attempts|
    ensures Growing(attempts[i].logs) && (i > 0 ==> attempts[i - 1].logs != [])
    ensures LogBefore(attempts, i) <= attempts[i].logs[0] && LatestBefore(attempts, i) <= attempts[i].latest
    ensures attempts[i].force ==> views[i] == View([], 0)
    ensures Attempted(views[i], attempts[i], views[i + 1])
  {
    hide Attempted, Ordered;
    assert i > 0 ==> Follows(attempts[i - 1], attempts[i]);
    assert Growing(attempts[i].logs);
  }

  /** Whatever refreshes of the session failed before, every one that succeeds shows the latest events of the
      log it reached the end of: 500 of them, or all within the initial cursor window, without gap or
      repetition. */
  lemma EveryViewIsATail(views: seq<View>, attempts: seq<Attempt>, i: nat, k: nat)
    requires Session(views, attempts) && i < |attempts| && |attempts[i].logs| == MAXIMUM_PAGES
    requires Succeeded(views[i], attempts[i], k, views[i + 1])
    ensures k < MAXIMUM_PAGES && Current(views[i + 1], attempts[i].logs[k], attempts[i].latest)
  {
    hide Resumable, Attempted, Ordered, Current;
    StepFollows(views, attempts, i);
    EveryViewResumable(views, attempts, i);
    SuccessCurrent(views[i], LogBefore(attempts, i), LatestBefore(attempts, i), attempts[i], k, views[i + 1]);
  }

  /** A tail of an ordered log is itself strictly increasing. */
  lemma TailOrdered(window: seq<Event>, log: seq<Event>)
    requires Ordered(log) && IsTail(window, log)
    ensures Ordered(window)
  {
  }

  // ----- When catch-up fails -----------------------------------------------------------------------------------

  lemma {:induction false} CursorsBound(log: seq<Event>, n: nat, low: nat)
    requires Ordered(log) && n <= |log|
    requires n > 0 ==> log[0].cursor > low
    ensures n > 0 ==> log[n - 1].cursor >= low + n
  {
    if n > 1 {
      CursorsBound(log, n - 1, low);
    }
  }

  /** On a log that stands still, catch-up fails exactly when more than ten thousand events follow the
      start; a forced refresh or a first one starts close enough never to. */
  lemma CatchUpFailsIff(logs: seq<seq<Event>>, start: nat)
    requires Growing(logs) && forall i :: 0 <= i < |logs| ==> logs[i] == logs[0]
    ensures ContinuesFor(logs, start, MAXIMUM_PAGES) <==> |After(logs[0], start)| > PAGE_LIMIT * MAXIMUM_PAGES
    ensures logs[0] != [] && start + INITIAL_CURSOR_WINDOW >= logs[0][|logs[0]| - 1].cursor ==>
              !ContinuesFor(logs, start, MAXIMUM_PAGES)
  {
    hide After;
    var log := logs[0];
    assert logs[MAXIMUM_PAGES - 1] == log;
    AfterIsSuffix(log, start);
    var rest := After(log, start);
    if log != [] && rest != [] {
      TailOrdered(rest, log);
      CursorsBound(rest, |rest|, start);
    }
  }

  /** A refresh that failed on the bound fails again from the same start, however the log grows. */
  lemma FailureRepeats(logs: seq<seq<Event>>, later: seq<seq<Event>>, start: nat)
    requires Growing(logs) && Growing(later) && logs[MAXIMUM_PAGES - 1] <= later[0]
    requires ContinuesFor(logs, start, MAXIMUM_PAGES)
    ensures ContinuesFor(later, start, MAXIMUM_PAGES)
  {
    hide After, Ordered;
    var last := MAXIMUM_PAGES - 1;
    forall i | 0 <= i < MAXIMUM_PAGES ensures |After(later[i], start)| > PAGE_LIMIT * (i + 1) {
      assert logs[last] <= later[i];
      AfterGrows(logs[last], later[i], start);
    }
  }

  // ----- Views that cannot be refreshed again ------------------------------------------------------------------

  /** More events follow the cursor of the view than ten pages hold. */
  ghost predicate Stuck(v: View, log: seq<Event>) {
    v.timeline != [] && |After(log, v.after)| > PAGE_LIMIT * MAXIMUM_PAGES
  }

  /** A view with something in it is refreshed from a still log, if no request fails, exactly when it is not
      stuck. */
  lemma RefreshedIff(v: View, a: Attempt, now: View)
    requires Growing(a.logs) && (forall i :: 0 <= i < |a.logs| ==> a.logs[i] == a.logs[0])
    requires v.timeline != [] && !a.force && a.failAt >= MAXIMUM_PAGES && Attempted(v, a, now)
    ensures (exists k: nat :: Succeeded(v, a, k, now)) <==> !Stuck(v, a.logs[0])
  {
    hide After, Recent, HeldAfter, Ordered;
    CatchUpFailsIff(a.logs, v.after);
    EndsOrContinues(a.logs, v.after);
    assert StartOf(v, a) == v.after;
  }

  lemma EndsOrContinues(logs: seq<seq<Event>>, start: nat)
    requires |logs| == MAXIMUM_PAGES
    ensures forall k: nat :: EndsAt(logs, start, k) ==> !ContinuesFor(logs, start, MAXIMUM_PAGES)
  {
  }

  /** A refresh that fails because ten pages did not reach the end leaves a stuck view. */
  lemma BoundFailureSticks(views: seq<View>, attempts: seq<Attempt>, i: nat)
    requires Session(views, attempts) && i < |attempts| && |attempts[i].logs| == MAXIMUM_PAGES
    requires Failed(views[i], attempts[i], views[i + 1]) && attempts[i].failAt >= MAXIMUM_PAGES
    ensures Stuck(views[i + 1], LogBefore(attempts, i + 1))
  {
    hide After, Ordered, Attempted, Current, Recent, HeldAfter;
    var v, a := views[i], attempts[i];
    StepFollows(views, attempts, i);
    EveryViewResumable(views, attempts, i);
    assert v.after <= StartOf(v, a);
    var last := a.logs[MAXIMUM_PAGES - 1];
    assert |After(last, StartOf(v, a))| > PAGE_LIMIT * MAXIMUM_PAGES;
    AfterLater(last, v.after, StartOf(v, a));
    FailedHolds(v, a, views[i + 1]);
  }

  /** A stuck view stays so: every refresh fails from then on, until the session is selected anew. */
  lemma {:induction false} StuckForGood(views: seq<View>, attempts: seq<Attempt>, i: nat, n: nat)
    requires Session(views, attempts) && i <= n <= |attempts| && (i > 0 ==> attempts[i - 1].logs != [])
    requires Stuck(views[i], LogBefore(attempts, i))
    ensures n > 0 ==> attempts[n - 1].logs != []
    ensures Stuck(views[n], LogBefore(attempts, n)) && views[n].after == views[i].after
    ensures forall j :: i <= j < n ==> |attempts[j].logs| == MAXIMUM_PAGES && Failed(views[j], attempts[j], views[j + 1])
    decreases n
  {
    hide Stuck, Attempted, Failed, Ordered;
    if i < n {
      StuckForGood(views, attempts, i, n - 1);
      StepFollows(views, attempts, n - 1);
      StuckStep(views[n - 1], LogBefore(attempts, n - 1), attempts[n - 1], views[n]);
    }
  }

  lemma StuckStep(v: View, log: seq<Event>, a: Attempt, now: View)
    requires Growing(a.logs) && log <= a.logs[0] && (a.force ==> v == View([], 0))
    requires Stuck(v, log) && Attempted(v, a, now)
    ensures Failed(v, a, now) && now.after == v.after && Stuck(now, a.logs[MAXIMUM_PAGES - 1])
  {
    hide After, Recent, Ordered;
    var last := a.logs[MAXIMUM_PAGES - 1];
    forall i | 0 <= i < MAXIMUM_PAGES ensures |After(a.logs[i], v.after)| > PAGE_LIMIT * MAXIMUM_PAGES {
      assert log <= a.logs[0] <= a.logs[i];
      AfterGrows(log, a.logs[i], v.after);
    }
    assert StartOf(v, a) == v.after;
    assert Failed(v, a, now);
    if a.failAt == 0 {
      RecentLast(v.timeline);
    } else {
      FailedHolds(v, a, now);
    }
  }

  /** A forced refresh of a newly selected session that fails after its first page leaves a window whose cursor
      is still 0. With the session still and no more failures it is shown again exactly when at most ten
      thousand events follow cursor 0, although a forced refresh would succeed whatever the number. */
  lemma ForcedFailureRecoversIff(failed: Attempt, left: View, a: Attempt, now: View)
    requires Growing(failed.logs) && failed.force && failed.failAt > 0 && Failed(View([], 0), failed, left)
    requires Growing(a.logs) && failed.logs[MAXIMUM_PAGES - 1] <= a.logs[0]
    requires (forall i :: 0 <= i < |a.logs| ==> a.logs[i] == a.logs[0])
    requires !a.force && a.failAt >= MAXIMUM_PAGES && Attempted(left, a, now)
    ensures (exists k: nat :: Succeeded(left, a, k, now)) <==> |After(a.logs[0], 0)| <= PAGE_LIMIT * MAXIMUM_PAGES
    ensures Failed(left, a, now) <==> Stuck(left, a.logs[0])
    ensures a.latest >= HighWatermark(a.logs[0]) ==> !ContinuesFor(a.logs, Since(a.latest), MAXIMUM_PAGES)
  {
    hide After, Recent, Ordered, HeldAfter;
    FailedHolds(View([], 0), failed, left);
    RefreshedIff(left, a, now);
    AfterIsSuffix(a.logs[0], Since(a.latest));
    CatchUpFailsIff(a.logs, Since(a.latest));
  }

  function LastOf(events: seq<Event>, n: nat): seq<Event> {
    if n < |events| then events[|events| - n..] else events
  }

  lemma KeptTailIff(held: seq<Event>, after: nat, log: seq<Event>)
    requires Ordered(log) && |held| <= MAXIMUM_RECENT_EVENTS
    ensures var added := After(log, after);
            |added| <= |log| &&
            (IsTail(Recent(held + added), log) <==>
             || |added| >= MAXIMUM_RECENT_EVENTS
             || IsTail(LastOf(held, MAXIMUM_RECENT_EVENTS - |added|), log[..|log| - |added|]))
  {
    hide After, IsTail, Recent, LastOf, Ordered;
    AfterIsSuffix(log, after);
    var added := After(log, after);
    var older := log[..|log| - |added|];
    assert log == older + added;
    RecentSplit(held, added);
    if |added| >= MAXIMUM_RECENT_EVENTS {
      AddedTail(added, older);
    } else {
      TailSplit(LastOf(held, MAXIMUM_RECENT_EVENTS - |added|), added, older);
    }
  }

  /** A refresh that continues with any unbroken piece of the log in hand, such as a failed one leaves, from
      the cursor of any event or from before them all, ends in a tail of the log exactly when new events
      fill the window or the last event held is the one at the cursor. */
  lemma NextViewIff(held: seq<Event>, after: nat, log: seq<Event>, end: nat)
    requires Ordered(log) && 0 < |held| <= MAXIMUM_RECENT_EVENTS
    requires |held| <= end <= |log| && held == log[end - |held|..end]
    requires AtEvent(log, after)
    ensures IsTail(Recent(held + After(log, after)), log) <==>
            |After(log, after)| >= MAXIMUM_RECENT_EVENTS || held[|held| - 1].cursor == after
  {
    hide After, Recent, IsTail, LastOf;
    KeptTailIff(held, after, log);
    AfterIsSuffix(log, after);
    var added := After(log, after);
    var n := |log| - |added|;
    if |added| < MAXIMUM_RECENT_EVENTS {
      var kept := LastOf(held, MAXIMUM_RECENT_EVENTS - |added|);
      LastOfPiece(held, log, end, MAXIMUM_RECENT_EVENTS - |added|);
      PieceIsTail(kept, log, end, n);
      assert held[|held| - 1] == log[end - 1];
    }
  }

  lemma LastOfPiece(held: seq<Event>, log: seq<Event>, end: nat, n: nat)
    requires held != [] && n > 0 && |held| <= end <= |log| && held == log[end - |held|..end]
    ensures var kept := LastOf(held, n);
            0 < |kept| <= end && kept == log[end - |kept|..end]
  {
  }

  /** An unbroken piece of the log is a tail of its first `n` events exactly when it ends there. */
  lemma PieceIsTail(kept: seq<Event>, log: seq<Event>, end: nat, n: nat)
    requires Ordered(log) && 0 < |kept| <= end <= |log| && n <= |log| && kept == log[end - |kept|..end]
    ensures IsTail(kept, log[..n]) <==> n == end
  {
    TailEnds(kept, log[..n]);
    assert kept[|kept| - 1] == log[end - 1];
    if n == end {
      assert kept == log[..n][n - |kept|..];
    }
  }

  lemma TailEnds(window: seq<Event>, log: seq<Event>)
    requires window != []
    ensures IsTail(window, log) ==> log != [] && window[|window| - 1] == log[|log| - 1]
  {
  }

  /** The cursor is that of an event of the log, or before them all. */
  ghost predicate AtEvent(log: seq<Event>, after: nat)
    requires Ordered(log)
  {
    AfterIsSuffix(log, after);
    |After(log, after)| < |log| ==> log[|log| - |After(log, after)| - 1].cursor == after
  }

  lemma RecentSplit(held: seq<Event>, added: seq<Event>)
    ensures |added| >= MAXIMUM_RECENT_EVENTS ==> Recent(held + added) == Recent(added)
    ensures |added| < MAXIMUM_RECENT_EVENTS ==>
              Recent(held + added) == LastOf(held, MAXIMUM_RECENT_EVENTS - |added|) + added
  {
  }

  lemma AddedTail(added: seq<Event>, older: seq<Event>)
    ensures IsTail(Recent(added), older + added)
  {
  }

  lemma TailSplit(kept: seq<Event>, added: seq<Event>, older: seq<Event>)
    ensures IsTail(kept + added, older + added) <==> IsTail(kept, older)
  {
    if |kept| <= |older| {
      var n := |older| - |kept|;
      assert (older + added)[n..] == older[n..] + added;
      if kept + added == older[n..] + added {
        assert kept == (kept + added)[..|kept|] == older[n..];
      }
    }
  }
}
