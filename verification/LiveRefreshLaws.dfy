/**
 * When the refresh loop reads, what it reports and when it polls next, told by
 * its options and the events that reached it.
 */
module LiveRefreshLaws {
  import opened Common
  import opened LiveRefresh
  import opened LiveRefreshRuns

  // ---- When a read starts --------------------------------------------------------------

  /** The event asks for a read now: a hint without a window, a refresh, going live, a due poll, a closed window. */
  predicate AsksForRead(cfg: Config, s: State, now: real, e: Event) {
    !s.disposed &&
    match e
    case HintEvent(counts) => counts && cfg.coalesceMs <= 0.0
    case RefreshEvent => true
    case LiveEvent(next) => next && !s.live
    case HiddenEvent(next) => s.hidden && !next && s.dueAt.Some? && s.dueAt.value <= now
    case PollEvent => s.pollTimer.Some?
    case CoalesceEvent => s.coalesceTimer.Some?
    case _ => false
  }

  /** The read in flight is over. */
  predicate Finishes(s: State, e: Event) {
    e.FinishEvent? && !s.disposed && s.inFlight == Some(e.read) && e.read in s.running && s.running[e.read]
  }

  predicate ReadStarts(cfg: Config, s: State, now: real, e: Event) {
    (AsksForRead(cfg, s, now, e) && s.inFlight.None?) || (Finishes(s, e) && s.queued)
  }

  predicate ReadsAfter(cfg: Config, s: State, now: real, e: Event, s': State) {
    && s'.started == s.started + (if ReadStarts(cfg, s, now, e) then 1 else 0)
    && s'.inFlight == (if ReadStarts(cfg, s, now, e) then Some(s.started)
                       else if Finishes(s, e) || e.DisposeEvent? then None else s.inFlight)
    && (s'.queued <==> !e.DisposeEvent?
                       && ((s.queued && !Finishes(s, e)) || (AsksForRead(cfg, s, now, e) && s.inFlight.Some?)))
  }

  lemma FinishReads(cfg: Config, s: State, now: real, read: nat)
    requires Invariant(cfg, s)
    ensures ReadsAfter(cfg, s, now, FinishEvent(read), Finish(cfg, s, now, read))
  {
  }

  lemma SwitchReads(cfg: Config, s: State, now: real, e: Event)
    requires Invariant(cfg, s) && (e.LiveEvent? || e.HiddenEvent?)
    ensures ReadsAfter(cfg, s, now, e, Step(cfg, s, now, e))
  {
  }

  /** A read starts exactly when one is asked for and none is in flight, or the one in flight ends with another queued. */
  lemma ReadStartsExactlyWhen(cfg: Config, s: State, now: real, e: Event)
    requires Invariant(cfg, s)
    ensures ReadsAfter(cfg, s, now, e, Step(cfg, s, now, e))
  {
    match e
    case FinishEvent(read) => FinishReads(cfg, s, now, read);
    case LiveEvent(_) => SwitchReads(cfg, s, now, e);
    case HiddenEvent(_) => SwitchReads(cfg, s, now, e);
    case _ =>
  }

  /** A loop created to read at once does; another waits for its first poll. */
  lemma CreatedReads(cfg: Config, live: bool, hidden: bool, immediate: bool, now: real)
    ensures var s := Create(cfg, live, hidden, immediate, now);
      && s.live == live && s.hidden == hidden && !s.disposed && s.failures == 0 && s.reports == [] && !s.queued
      && (if immediate then s.inFlight == Some(0) && s.started == 1 && s.running == map[0 := false]
          else s.inFlight.None? && s.started == 0 && s.running == map[] && s.scheduledAt == now)
  {
  }

  // ---- What is reported -----------------------------------------------------------------

  /** A read that had not settled does, before the loop is disposed. */
  predicate Reports(s: State, e: Event) {
    e.SettleEvent? && !s.disposed && e.read in s.running && !s.running[e.read]
  }

  function Outcome(s: State, e: Event): seq<Report> {
    if !Reports(s, e) then [] else if e.ok then [Data(e.read)] else [Error(e.read)]
  }

  /** What is said of the loop from outside, and what it has reported. */
  predicate SameSaid(s: State, s': State) {
    && s'.reports == s.reports && s'.failures == s.failures
    && s'.live == s.live && s'.hidden == s.hidden && s'.disposed == s.disposed
  }

  lemma ReadKeepsSaid(s: State)
    ensures SameSaid(s, Read(s))
  {
  }

  lemma AskingKeepsSaid(cfg: Config, s: State, now: real, e: Event)
    requires e.HintEvent? || e.RefreshEvent? || e.PollEvent? || e.CoalesceEvent?
    ensures SameSaid(s, Step(cfg, s, now, e))
  {
    match e
    case HintEvent(_) => ReadKeepsSaid(s.(dirty := true));
    case RefreshEvent => ReadKeepsSaid(s);
    case PollEvent => ReadKeepsSaid(s.(pollTimer := None, dueAt := None));
    case CoalesceEvent => ReadKeepsSaid(s.(coalesceTimer := None));
  }

  lemma LiveKeepsSaid(cfg: Config, s: State, now: real, next: bool)
    ensures SameSaid(s.(live := if s.disposed then s.live else next), SetLive(cfg, s, now, next))
  {
    ReadKeepsSaid(s.(live := true));
  }

  lemma HiddenKeepsSaid(s: State, now: real, next: bool)
    ensures SameSaid(s.(hidden := if s.disposed then s.hidden else next), SetHidden(s, now, next))
  {
    ReadKeepsSaid(s.(hidden := false, dueAt := None));
  }

  lemma FinishKeepsSaid(cfg: Config, s: State, now: real, read: nat)
    ensures SameSaid(s, Finish(cfg, s, now, read))
  {
    ReadKeepsSaid(s.(running := s.running - {read}, inFlight := None, queued := false));
  }

  lemma SettleReports(s: State, read: nat, ok: bool)
    ensures var s', e := Settle(s, read, ok), SettleEvent(read, ok);
      && s'.reports == s.reports + Outcome(s, e)
      && s'.failures == if !Reports(s, e) then s.failures else if ok then 0 else s.failures + 1
  {
    assert s.reports + [] == s.reports;
  }

  /** Each outcome is reported once, as what it was, and counted: a success clears the failures, a failure adds one. */
  lemma ReportedExactly(cfg: Config, s: State, now: real, e: Event)
    ensures var s' := Step(cfg, s, now, e);
      && s'.reports == s.reports + Outcome(s, e)
      && s'.failures == if !Reports(s, e) then s.failures else if e.ok then 0 else s.failures + 1
  {
    assert s.reports + [] == s.reports;
    match e
    case LiveEvent(next) => LiveKeepsSaid(cfg, s, now, next);
    case HiddenEvent(next) => HiddenKeepsSaid(s, now, next);
    case FinishEvent(read) => FinishKeepsSaid(cfg, s, now, read);
    case SettleEvent(read, ok) => SettleReports(s, read, ok);
    case DisposeEvent =>
    case _ => AskingKeepsSaid(cfg, s, now, e);
  }

  /** The outcomes of a run, in order. */
  function Outcomes(cfg: Config, s: State, events: seq<Timed>): seq<Report>
    decreases |events|
  {
    if events == [] then []
    else Outcome(s, events[0].event) + Outcomes(cfg, Step(cfg, s, events[0].now, events[0].event), events[1..])
  }

  /** The failures since the last success. */
  function Trailing(reports: seq<Report>): nat {
    if reports == [] || reports[|reports| - 1].Data? then 0 else Trailing(reports[..|reports| - 1]) + 1
  }

  lemma TrailingOutcome(reports: seq<Report>, r: Report)
    ensures Trailing(reports + [r]) == if r.Data? then 0 else Trailing(reports) + 1
  {
  }

  /** In every run the reports are the outcomes in order, and the backoff counts the failures since the last success. */
  lemma {:induction false} RunReports(cfg: Config, s: State, events: seq<Timed>)
    requires s.failures == Trailing(s.reports)
    ensures var s' := Run(cfg, s, events);
      s'.reports == s.reports + Outcomes(cfg, s, events) && s'.failures == Trailing(s'.reports)
    decreases |events|
  {
    if events == [] {
      assert s.reports + [] == s.reports;
    } else {
      var t, e := events[0].now, events[0].event;
      var s1 := Step(cfg, s, t, e);
      ReportedExactly(cfg, s, t, e);
      if Reports(s, e) { TrailingOutcome(s.reports, Outcome(s, e)[0]); } else { assert s.reports + [] == s.reports; }
      RunReports(cfg, s1, events[1..]);
      Associative(s.reports, Outcome(s, e), Outcomes(cfg, s1, events[1..]));
    }
  }

  // ---- Switches and the hint window --------------------------------------------------------

  /** Live, hidden and disposed are what was said last. */
  lemma SwitchesExactly(cfg: Config, s: State, now: real, e: Event)
    ensures var s' := Step(cfg, s, now, e);
      && s'.live == (if e.LiveEvent? && !s.disposed then e.next else s.live)
      && s'.hidden == (if e.HiddenEvent? && !s.disposed then e.next else s.hidden)
      && (s'.disposed <==> s.disposed || e.DisposeEvent?)
  {
    match e
    case LiveEvent(next) => LiveKeepsSaid(cfg, s, now, next);
    case HiddenEvent(next) => HiddenKeepsSaid(s, now, next);
    case FinishEvent(read) => FinishKeepsSaid(cfg, s, now, read);
    case SettleEvent(_, _) =>
    case DisposeEvent =>
    case _ => AskingKeepsSaid(cfg, s, now, e);
  }

  /** The hint window after the event. */
  function WindowAfter(cfg: Config, s: State, now: real, e: Event): Option<real> {
    if e.CoalesceEvent? || e.DisposeEvent? || ReadStarts(cfg, s, now, e) then None
    else if e.HintEvent? && e.counts && !s.disposed && cfg.coalesceMs > 0.0 && s.coalesceTimer.None?
    then Some(now + cfg.coalesceMs)
    else s.coalesceTimer
  }

  lemma LiveKeepsWindow(cfg: Config, s: State, now: real, next: bool)
    ensures SetLive(cfg, s, now, next).coalesceTimer == WindowAfter(cfg, s, now, LiveEvent(next))
  {
  }

  lemma HiddenKeepsWindow(cfg: Config, s: State, now: real, next: bool)
    ensures SetHidden(s, now, next).coalesceTimer == WindowAfter(cfg, s, now, HiddenEvent(next))
  {
  }

  lemma FinishKeepsWindow(cfg: Config, s: State, now: real, read: nat)
    ensures Finish(cfg, s, now, read).coalesceTimer == WindowAfter(cfg, s, now, FinishEvent(read))
  {
  }

  /** The window opens at the first hint counted in it, and closes when it fires, a read starts or the loop is disposed. */
  lemma WindowExactly(cfg: Config, s: State, now: real, e: Event)
    requires Invariant(cfg, s)
    ensures Step(cfg, s, now, e).coalesceTimer == WindowAfter(cfg, s, now, e)
  {
    match e
    case LiveEvent(next) => LiveKeepsWindow(cfg, s, now, next);
    case HiddenEvent(next) => HiddenKeepsWindow(cfg, s, now, next);
    case FinishEvent(read) => FinishKeepsWindow(cfg, s, now, read);
    case _ =>
  }

  // ---- When it polls next --------------------------------------------------------------------

  /** If a poll is due it is one to five times `base` after it was worked out. */
  predicate DueWithin(s: State, base: real) {
    s.dueAt.Some? ==> s.scheduledAt + base <= s.dueAt.value <= s.scheduledAt + 5.0 * base
  }

  /** Offline the loop polls by the offline option; live by the live one, or if that is off, by the offline one after a failure. */
  predicate PollsBy(cfg: Config, s: State) {
    if !s.live then (s.dueAt.Some? <==> cfg.pollMs > 0.0) && DueWithin(s, cfg.pollMs)
    else if cfg.livePollMs > 0.0 then s.dueAt.Some? && DueWithin(s, cfg.livePollMs)
    else (s.dueAt.Some? <==> s.failures > 0 && cfg.pollMs > 0.0) && DueWithin(s, cfg.pollMs)
  }

  lemma IdlePollsBy(cfg: Config, s: State)
    requires Invariant(cfg, s) && !s.disposed && s.inFlight.None?
    ensures PollsBy(cfg, s) && (s.pollTimer == if s.hidden then None else s.dueAt)
  {
    DelayBounds(s.failures, cfg.pollMs, cfg.maxBackoff);
    DelayBounds(s.failures, cfg.livePollMs, cfg.maxBackoff);
  }

  /** In every run, whenever the loop is idle and not disposed, the next poll is due by the options, and armed while visible. */
  lemma IdleLoopPollsByOptions(cfg: Config, live: bool, hidden: bool, immediate: bool, at: real, events: seq<Timed>)
    ensures var s := Run(cfg, Create(cfg, live, hidden, immediate, at), events);
      !s.disposed && s.inFlight.None? ==> PollsBy(cfg, s) && (s.pollTimer == if s.hidden then None else s.dueAt)
  {
    var s := Run(cfg, Create(cfg, live, hidden, immediate, at), events);
    CreatedIsInvariant(cfg, live, hidden, immediate, at);
    RunKeepsInvariant(cfg, Create(cfg, live, hidden, immediate, at), events);
    if !s.disposed && s.inFlight.None? { IdlePollsBy(cfg, s); }
  }

  predicate CountsFrom(s: State, s': State, now: real) {
    && (s'.dueAt.None? || s'.dueAt == s.dueAt || s'.scheduledAt == now)
    && (s'.scheduledAt == s.scheduledAt || s'.scheduledAt == now)
  }

  lemma ReadKeepsWait(s: State, now: real)
    ensures CountsFrom(s, Read(s), now)
  {
  }

  lemma ScheduleCountsFromNow(cfg: Config, s: State, s1: State, now: real)
    requires s1.scheduledAt == s.scheduledAt
    ensures CountsFrom(s, Schedule(cfg, s1, now), now)
  {
  }

  lemma LiveCountsFromNow(cfg: Config, s: State, now: real, next: bool)
    ensures CountsFrom(s, SetLive(cfg, s, now, next), now)
  {
    ReadKeepsWait(s.(live := true), now);
    ScheduleCountsFromNow(cfg, s, s.(live := false), now);
  }

  lemma HiddenCountsFromNow(s: State, now: real, next: bool)
    ensures CountsFrom(s, SetHidden(s, now, next), now)
  {
    ReadKeepsWait(s.(hidden := false, dueAt := None), now);
  }

  lemma FinishCountsFromNow(cfg: Config, s: State, now: real, read: nat)
    ensures CountsFrom(s, Finish(cfg, s, now, read), now)
  {
    ReadKeepsWait(s.(running := s.running - {read}, inFlight := None, queued := false), now);
    ScheduleCountsFromNow(cfg, s, s.(running := s.running - {read}, inFlight := None), now);
  }

  /** A poll is worked out when the event that calls for it comes: the wait counts from there. */
  lemma WaitCountsFromNow(cfg: Config, s: State, now: real, e: Event)
    ensures CountsFrom(s, Step(cfg, s, now, e), now)
  {
    match e
    case HintEvent(_) => ReadKeepsWait(s.(dirty := true), now);
    case RefreshEvent => ReadKeepsWait(s, now);
    case PollEvent => ReadKeepsWait(s.(pollTimer := None, dueAt := None), now);
    case CoalesceEvent => ReadKeepsWait(s.(coalesceTimer := None), now);
    case LiveEvent(next) => LiveCountsFromNow(cfg, s, now, next);
    case HiddenEvent(next) => HiddenCountsFromNow(s, now, next);
    case FinishEvent(read) => FinishCountsFromNow(cfg, s, now, read);
    case SettleEvent(_, _) =>
    case DisposeEvent =>
  }

  /** After a failure with nothing queued, the next poll is its interval away, doubled per failure, up to the ceiling. */
  lemma FailureBacksOff(cfg: Config, s: State, later: real)
    requires Invariant(cfg, s) && !s.disposed && s.inFlight.Some? && !s.queued && !s.running[s.inFlight.value]
    ensures var s1 := Settle(s, s.inFlight.value, false);
      var s2 := Finish(cfg, s1, later, s.inFlight.value);
      var interval := if s.live && cfg.livePollMs > 0.0 then cfg.livePollMs else cfg.pollMs;
      && s2.failures == s.failures + 1
      && s2.dueAt == (if interval > 0.0 then Some(later + Delay(s.failures + 1, Finite(interval), cfg.maxBackoff).value) else None)
  {
  }
}
