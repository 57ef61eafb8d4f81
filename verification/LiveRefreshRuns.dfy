/** What every run of the refresh loop keeps: one read at a time, no hint lost, a poll always coming. */
module LiveRefreshRuns {
  import opened Common
  import opened LiveRefresh

  ghost predicate Invariant(cfg: Config, s: State) {
    && ReadsOk(s)
    && (s.dirty && !s.disposed ==> s.coalesceTimer.Some? || s.queued)
    && PollOk(cfg, s)
  }

  /** Until the loop is disposed the only read outstanding is the one in flight, and only behind it is one queued. */
  ghost predicate ReadsOk(s: State) {
    && (forall r | r in s.running :: r < s.started)
    && (!s.disposed ==> s.running.Keys == if s.inFlight.Some? then {s.inFlight.value} else {})
    && (s.queued ==> s.inFlight.Some?)
    && (s.disposed ==> s.inFlight.None? && s.coalesceTimer.None?)
  }

  /**
   * Idle, a next poll is due exactly when the cadence is on, and its timer is
   * armed for that moment exactly when the page is visible; otherwise neither
   * exists.
   */
  ghost predicate PollOk(cfg: Config, s: State) {
    if s.disposed || s.inFlight.Some? then s.dueAt.None? && s.pollTimer.None?
    else
      && (s.dueAt.Some? <==> Cadence(cfg, s) > 0.0)
      && s.pollTimer == (if s.hidden then None else s.dueAt)
      && (s.dueAt.Some? ==> s.dueAt.value == s.scheduledAt + Wait(cfg, s))
  }

  lemma ReadKeepsInvariant(cfg: Config, s: State)
    requires ReadsOk(s)
    requires s.disposed || s.inFlight.Some? ==> PollOk(cfg, s)
    ensures Invariant(cfg, Read(s))
  {
  }

  lemma ScheduleKeepsInvariant(cfg: Config, s: State, now: real)
    requires ReadsOk(s) && (s.dirty && !s.disposed ==> s.coalesceTimer.Some? || s.queued)
    ensures Invariant(cfg, Schedule(cfg, s, now))
  {
  }

  lemma FinishKeepsInvariant(cfg: Config, s: State, now: real, read: nat)
    requires Invariant(cfg, s)
    ensures Invariant(cfg, Finish(cfg, s, now, read))
  {
  }

  lemma SettleKeepsInvariant(cfg: Config, s: State, read: nat, ok: bool)
    requires Invariant(cfg, s)
    ensures Invariant(cfg, Settle(s, read, ok))
  {
  }

  lemma LiveKeepsInvariant(cfg: Config, s: State, now: real, next: bool)
    requires Invariant(cfg, s)
    ensures Invariant(cfg, SetLive(cfg, s, now, next))
  {
    if next { ReadKeepsInvariant(cfg, s.(live := true)); } else { ScheduleKeepsInvariant(cfg, s.(live := false), now); }
  }

  lemma HiddenKeepsInvariant(cfg: Config, s: State, now: real, next: bool)
    requires Invariant(cfg, s)
    ensures Invariant(cfg, SetHidden(s, now, next))
  {
    ReadKeepsInvariant(cfg, s.(hidden := false, dueAt := None));
  }

  lemma StepKeepsInvariant(cfg: Config, s: State, now: real, e: Event)
    requires Invariant(cfg, s)
    ensures Invariant(cfg, Step(cfg, s, now, e))
  {
    match e
    case HintEvent(counts) => ReadKeepsInvariant(cfg, s.(dirty := true));
    case RefreshEvent => ReadKeepsInvariant(cfg, s);
    case LiveEvent(next) => LiveKeepsInvariant(cfg, s, now, next);
    case HiddenEvent(next) => HiddenKeepsInvariant(cfg, s, now, next);
    case PollEvent => ReadKeepsInvariant(cfg, s.(pollTimer := None, dueAt := None));
    case CoalesceEvent => ReadKeepsInvariant(cfg, s.(coalesceTimer := None));
    case SettleEvent(read, ok) => SettleKeepsInvariant(cfg, s, read, ok);
    case FinishEvent(read) => FinishKeepsInvariant(cfg, s, now, read);
    case DisposeEvent =>
  }

  lemma {:induction false} RunKeepsInvariant(cfg: Config, s: State, events: seq<Timed>)
    requires Invariant(cfg, s)
    ensures Invariant(cfg, Run(cfg, s, events))
    decreases |events|
  {
    if events != [] {
      StepKeepsInvariant(cfg, s, events[0].now, events[0].event);
      RunKeepsInvariant(cfg, Step(cfg, s, events[0].now, events[0].event), events[1..]);
    }
  }

  lemma CreatedIsInvariant(cfg: Config, live: bool, hidden: bool, immediate: bool, now: real)
    ensures Invariant(cfg, Create(cfg, live, hidden, immediate, now))
  {
  }

  /**
   * From creation, whatever happens: at most one read in flight and one queued
   * behind it; a hint newer than the last read's start waits on the coalesce
   * timer or the queue; and idle, the next poll is due between one and five
   * cadences after it was worked out, with its timer armed while visible.
   */
  lemma LoopIsLive(cfg: Config, live: bool, hidden: bool, immediate: bool, at: real, events: seq<Timed>)
    ensures var s := Run(cfg, Create(cfg, live, hidden, immediate, at), events);
      !s.disposed ==>
        && |s.running| <= 1 && (s.queued ==> s.inFlight.Some?)
        && (s.dirty ==> s.coalesceTimer.Some? || s.queued)
        && (s.inFlight.None? ==>
              && (s.dueAt.Some? <==> Cadence(cfg, s) > 0.0)
              && (s.pollTimer.Some? <==> s.dueAt.Some? && !s.hidden)
              && (s.dueAt.Some? ==> s.scheduledAt + Cadence(cfg, s) <= s.dueAt.value
                                    <= s.scheduledAt + MAX_BACKOFF * Cadence(cfg, s)))
  {
    var s := Run(cfg, Create(cfg, live, hidden, immediate, at), events);
    CreatedIsInvariant(cfg, live, hidden, immediate, at);
    RunKeepsInvariant(cfg, Create(cfg, live, hidden, immediate, at), events);
    DelayBounds(s.failures, Cadence(cfg, s), cfg.maxBackoff);
    assert |s.running.Keys| == |s.running|;
  }

  // ---- Hints ---------------------------------------------------------------------------

  /** A read has started since, or a hint that was owed one still is. */
  predicate Owed(s: State, s': State) {
    s'.started > s.started || (s'.started == s.started && (s.dirty ==> s'.dirty))
  }

  lemma StepOwes(cfg: Config, s: State, now: real, e: Event)
    ensures Owed(s, Step(cfg, s, now, e))
  {
  }

  /** A counted hint stays owed a read until one starts, in every run. */
  lemma {:induction false} HintsAreOwedARead(cfg: Config, s: State, events: seq<Timed>)
    ensures Owed(s, Run(cfg, s, events))
    decreases |events|
  {
    if events != [] {
      var s1 := Step(cfg, s, events[0].now, events[0].event);
      StepOwes(cfg, s, events[0].now, events[0].event);
      HintsAreOwedARead(cfg, s1, events[1..]);
    }
  }

  /** A counted hint either starts a read at once or leaves one owed. */
  lemma HintIsCounted(cfg: Config, s: State, now: real)
    requires !s.disposed
    ensures var s' := Hint(cfg, s, now, true); s'.started == s.started + 1 || s'.dirty
  {
  }

  /** Hints within the window share one read, due a window after the first of them. */
  lemma HintsCoalesce(cfg: Config, s: State, first: real, later: real)
    requires !s.disposed && s.inFlight.None? && s.coalesceTimer.None? && cfg.coalesceMs > 0.0
    ensures var s1 := Hint(cfg, s, first, true);
      var s2 := Hint(cfg, s1, later, true);
      && s2 == s1 && s2.started == s.started && s2.coalesceTimer == Some(first + cfg.coalesceMs)
      && CoalesceFires(s2).started == s.started + 1 && !CoalesceFires(s2).dirty
      && CoalesceFires(CoalesceFires(s2)) == CoalesceFires(s2)
  {
  }

  /** Becoming live catches up: a read starts now, or right after the one in flight. */
  lemma BecomingLiveReads(cfg: Config, s: State, now: real)
    requires !s.disposed && !s.live
    ensures var s' := SetLive(cfg, s, now, true);
      s'.live && if s.inFlight.None? then s'.started == s.started + 1 else s'.queued
  {
  }

  /** A poll that came due while the page was hidden reads as soon as it is shown; one that did not waits out the rest. */
  lemma ShowingReadsWhatCameDue(cfg: Config, s: State, now: real)
    requires Invariant(cfg, s) && !s.disposed && s.hidden && s.inFlight.None?
    ensures var s' := SetHidden(s, now, false);
      if s.dueAt.Some? && s.dueAt.value <= now then s'.started == s.started + 1
      else s'.started == s.started && s'.pollTimer == s.dueAt
  {
  }

  /**
   * The owed read comes: the coalesce timer starts it or queues it, and the
   * read in flight, once finished, starts the queued one.
   */
  lemma OwedReadStarts(cfg: Config, s: State, now: real, later: real, ok: bool)
    requires Invariant(cfg, s) && !s.disposed && s.dirty
    ensures s.coalesceTimer.Some? && s.inFlight.None? ==> CoalesceFires(s).started == s.started + 1
    ensures s.coalesceTimer.Some? && s.inFlight.Some? ==> CoalesceFires(s).queued
    ensures s.queued ==>
              var s1 := Settle(s, s.inFlight.value, ok);
              var s2 := Finish(cfg, s1, later, s.inFlight.value);
              s2.started == s.started + 1 && s2.inFlight == Some(s.started) && !s2.dirty
  {
  }

  // ---- Success, and the end --------------------------------------------------------------

  /** A success clears the failures, and with nothing queued the next poll is a plain interval away. */
  lemma SuccessResetsBackoff(cfg: Config, s: State, later: real)
    requires Invariant(cfg, s) && !s.disposed && s.inFlight.Some? && !s.queued && !s.running[s.inFlight.value]
    ensures var s1 := Settle(s, s.inFlight.value, true);
      var s2 := Finish(cfg, s1, later, s.inFlight.value);
      var interval := if s.live then cfg.livePollMs else cfg.pollMs;
      s2.failures == 0 && s2.dueAt == (if interval > 0.0 then Some(later + interval) else None)
  {
  }

  /** Dispose is for good: no timer, no read, no report after it. */
  lemma {:induction false} DisposeIsAbsorbing(cfg: Config, s: State, events: seq<Timed>)
    requires Invariant(cfg, s)
    ensures var d, s' := Dispose(s), Run(cfg, Dispose(s), events);
      && s'.disposed && s'.pollTimer.None? && s'.coalesceTimer.None? && s'.dueAt.None? && s'.inFlight.None?
      && s'.reports == d.reports == s.reports && s'.started == s.started
    decreases |events|
  {
    if events != [] {
      var d := Dispose(s);
      StepKeepsInvariant(cfg, s, 0.0, DisposeEvent);
      var s1 := Step(cfg, d, events[0].now, events[0].event);
      DisposedStep(cfg, d, events[0].now, events[0].event);
      StepKeepsInvariant(cfg, d, events[0].now, events[0].event);
      DisposeIsAbsorbing(cfg, s1, events[1..]);
    }
  }

  lemma DisposedStep(cfg: Config, s: State, now: real, e: Event)
    requires Invariant(cfg, s) && s.disposed
    ensures var s' := Step(cfg, s, now, e);
      s'.disposed && s'.reports == s.reports && s'.started == s.started && Dispose(s') == s'
  {
  }
}
