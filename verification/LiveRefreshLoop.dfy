/**
 * The refresh loop of src/client/liveRefresh.ts as it runs: the variables
 * `createLiveRefresh` closes over, updated in place. Each operation is proved
 * to take the loop exactly one step of `LiveRefresh`.
 */
module LiveRefreshHost {
  import opened Common
  import opened LiveRefresh

  class LiveRefreshLoop {
    const cfg: Config
    var disposed: bool
    var live: bool
    var hidden: bool
    var failures: nat
    /** The read in flight, by number. */
    var inFlight: Option<nat>
    var queued: bool
    var pollTimer: Option<real>
    var coalesceTimer: Option<real>
    var dueAt: Option<real>
    var running: map<nat, bool>
    var started: nat
    var reports: seq<Report>
    ghost var dirty: bool
    ghost var scheduledAt: real

    ghost function Contents(): State
      reads this
    {
      State(disposed, live, hidden, failures, inFlight, queued, pollTimer, coalesceTimer, dueAt,
            running, started, reports, dirty, scheduledAt)
    }

    constructor (coalesceMs: Option<Num>, livePollMs: Option<Num>, pollMs: Option<Num>, maxBackoff: Option<Num>,
                 live: bool, hidden: bool, immediate: bool, now: real)
      ensures cfg == MakeConfig(coalesceMs, livePollMs, pollMs, maxBackoff)
      ensures Contents() == Create(cfg, live, hidden, immediate, now)
    {
      cfg := Config(NonNegative(coalesceMs, 0.0), NonNegative(livePollMs, DEFAULT_LIVE_POLL_MS),
                    NonNegative(pollMs, DEFAULT_POLL_MS), if maxBackoff.Some? then maxBackoff.value else Finite(MAX_BACKOFF));
      this.live, this.hidden := live, hidden;
      disposed, failures, inFlight, queued := false, 0, None, false;
      pollTimer, coalesceTimer, dueAt := None, None, None;
      running, started, reports, dirty, scheduledAt := map[], 0, [], false, now;
      new;
      if immediate { ReadNow(); } else { ScheduleNext(now); }
    }

    method ScheduleNext(now: real)
      modifies this
      ensures Contents() == Schedule(cfg, old(Contents()), now)
    {
      pollTimer := None;
      dueAt := None;
      if disposed || inFlight.Some? { return; }
      var base := if live then cfg.livePollMs else cfg.pollMs;
      if base <= 0.0 && failures > 0 { base := cfg.pollMs; }
      if base <= 0.0 { return; }
      var wait := Delay(failures, Finite(base), cfg.maxBackoff).value;
      dueAt := Some(now + wait);
      scheduledAt := now;
      if !hidden {
        DelayBounds(failures, base, cfg.maxBackoff);
        ArmPoll(now, wait);
      }
    }

    /** `setTimeout` with the wait, never negative. */
    method ArmPoll(now: real, wait: real)
      modifies `pollTimer
      ensures pollTimer == Some(now + Max(0.0, wait))
    {
      pollTimer := Some(now + Max(0.0, wait));
    }

    method ReadNow()
      modifies this
      ensures Contents() == Read(old(Contents()))
    {
      if disposed { return; }
      if inFlight.Some? {
        queued := true;
        return;
      }
      Clear();
      StartNow();
    }

    method Clear()
      modifies this
      ensures Contents() == ClearTimers(old(Contents()))
    {
      pollTimer, coalesceTimer, dueAt := None, None, None;
    }

    method StartNow()
      modifies this
      ensures Contents() == StartRead(old(Contents()))
    {
      inFlight := Some(started);
      running := running[started := false];
      started := started + 1;
      dirty := false;
    }

    /** A frame arrived; `isHint` is what the option says of it. */
    method OnHint(now: real, isHint: bool) returns (counted: bool)
      modifies this
      ensures Contents() == Hint(cfg, old(Contents()), now, isHint)
      ensures counted <==> !old(disposed) && isHint
    {
      if disposed || !isHint { return false; }
      dirty := true;
      if cfg.coalesceMs <= 0.0 {
        ReadNow();
        return true;
      }
      if coalesceTimer.None? {
        coalesceTimer := Some(now + cfg.coalesceMs);
      }
      return true;
    }

    method ChangeLive(now: real, next: bool)
      modifies this
      ensures Contents() == SetLive(cfg, old(Contents()), now, next)
    {
      if disposed || next == live { return; }
      live := next;
      if live {
        ReadNow();
      } else if inFlight.None? {
        ScheduleNext(now);
      }
    }

    method ChangeHidden(now: real, next: bool)
      modifies this
      ensures Contents() == SetHidden(old(Contents()), now, next)
    {
      if disposed || next == hidden { return; }
      hidden := next;
      if hidden {
        pollTimer := None;
        return;
      }
      if dueAt.None? || inFlight.Some? { return; }
      var wait := dueAt.value - now;
      if wait <= 0.0 {
        dueAt := None;
        ReadNow();
      } else {
        ArmPoll(now, wait);
      }
    }

    /** A cleared timer does not fire. */
    method OnPollTimer()
      modifies this
      ensures Contents() == PollFires(old(Contents()))
    {
      if pollTimer.None? { return; }
      pollTimer := None;
      dueAt := None;
      ReadNow();
    }

    method OnCoalesceTimer()
      modifies this
      ensures Contents() == CoalesceFires(old(Contents()))
    {
      if coalesceTimer.None? { return; }
      coalesceTimer := None;
      ReadNow();
    }

    /** The promise of a read that has not settled yet settles. */
    method OnSettled(read: nat, ok: bool)
      modifies this
      ensures Contents() == Settle(old(Contents()), read, ok)
    {
      if read !in running || running[read] { return; }
      running := running[read := true];
      if disposed { return; }
      if ok {
        failures := 0;
        reports := reports + [Data(read)];
      } else {
        failures := failures + 1;
        reports := reports + [Error(read)];
      }
    }

    /** The `finally` of a settled read. */
    method OnFinished(now: real, read: nat)
      modifies this
      ensures Contents() == Finish(cfg, old(Contents()), now, read)
    {
      if read !in running || !running[read] { return; }
      running := running - {read};
      if inFlight != Some(read) { return; }
      inFlight := None;
      if disposed { return; }
      if queued {
        queued := false;
        ReadNow();
        return;
      }
      ScheduleNext(now);
    }

    method DisposeLoop()
      modifies this
      ensures Contents() == Dispose(old(Contents()))
    {
      if disposed { return; }
      disposed := true;
      pollTimer, coalesceTimer, dueAt := None, None, None;
      queued := false;
      inFlight := None;
    }
  }
}
