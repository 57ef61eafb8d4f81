/**
 * The "hint, re-read, else poll" loop (src/client/liveRefresh.ts): one read in
 * flight, one queued behind it, hints coalesced, polls backed off.
 */
module LiveRefresh {
  import opened Common

  /** A number as the options give it. */
  datatype Num = Finite(value: real) | NotFinite

  const MAX_BACKOFF := 5.0
  const DEFAULT_POLL_MS := 5000.0
  const DEFAULT_LIVE_POLL_MS := 30000.0

  function Pow2(n: nat): real {
    if n == 0 then 1.0 else 2.0 * Pow2(n - 1)
  }

  function Min(a: real, b: real): real {
    if a <= b then a else b
  }

  function Max(a: real, b: real): real {
    if a >= b then a else b
  }

  /** The backoff ceiling, clamped to 1-5. */
  function Cap(maxFactor: Num): real {
    Min(MAX_BACKOFF, Max(1.0, if maxFactor.Finite? then maxFactor.value else MAX_BACKOFF))
  }

  function Times(a: real, b: real): real {
    a * b
  }

  /** The base doubled per failure, up to the ceiling. */
  function Factor(failures: int, maxFactor: Num): real
    requires failures > 0
  {
    Min(Pow2(failures), Cap(maxFactor))
  }

  /** The wait before the next poll after `failures` consecutive failures. */
  function Delay(failures: int, base: Num, maxFactor: Num): Num {
    if base.NotFinite? || base.value <= 0.0 || failures <= 0 then base
    else Finite(Times(base.value, Factor(failures, maxFactor)))
  }

  /** An option that falls back when absent or not finite, and is never negative. */
  function NonNegative(v: Option<Num>, fallback: real): real {
    if v.None? || v.value.NotFinite? then fallback else Max(0.0, v.value.value)
  }

  datatype Config = Config(coalesceMs: real, livePollMs: real, pollMs: real, maxBackoff: Num)

  function MakeConfig(coalesceMs: Option<Num>, livePollMs: Option<Num>, pollMs: Option<Num>,
                      maxBackoff: Option<Num>): Config {
    Config(NonNegative(coalesceMs, 0.0), NonNegative(livePollMs, DEFAULT_LIVE_POLL_MS),
           NonNegative(pollMs, DEFAULT_POLL_MS), if maxBackoff.Some? then maxBackoff.value else Finite(MAX_BACKOFF))
  }

  datatype Report = Data(read: nat) | Error(read: nat)

  /**
   * Reads are numbered as they start; `running` is the ones whose promise has
   * not run its last handler, with whether it has settled. A timer is the
   * moment it fires. `dirty` says that a hint counted since the last read
   * started, `scheduledAt` when the next poll was last worked out.
   */
  datatype State = State(
    disposed: bool,
    live: bool,
    hidden: bool,
    failures: nat,
    inFlight: Option<nat>,
    queued: bool,
    pollTimer: Option<real>,
    coalesceTimer: Option<real>,
    dueAt: Option<real>,
    running: map<nat, bool>,
    started: nat,
    reports: seq<Report>,
    dirty: bool,
    scheduledAt: real)

  // ---- The loop's operations -----------------------------------------------------

  /** How often to poll now; a failure with the cadence off retries on the offline one. */
  function Cadence(cfg: Config, s: State): real {
    var base := if s.live then cfg.livePollMs else cfg.pollMs;
    if base <= 0.0 && s.failures > 0 then cfg.pollMs else base
  }

  function Wait(cfg: Config, s: State): real {
    Delay(s.failures, Finite(Cadence(cfg, s)), cfg.maxBackoff).value
  }

  function Schedule(cfg: Config, s: State, now: real): State {
    if s.disposed || s.inFlight.Some? || Cadence(cfg, s) <= 0.0 then s.(pollTimer := None, dueAt := None)
    else
      var due := Some(now + Wait(cfg, s));
      s.(dueAt := due, pollTimer := if s.hidden then None else due, scheduledAt := now)
  }

  /** Read at once, or after the read in flight. */
  function Read(s: State): State {
    if s.disposed then s
    else if s.inFlight.Some? then s.(queued := true)
    else StartRead(ClearTimers(s))
  }

  function ClearTimers(s: State): State {
    s.(pollTimer := None, coalesceTimer := None, dueAt := None)
  }

  /** A read under a new number is in flight, and every hint so far is answered by it. */
  function StartRead(s: State): State {
    s.(inFlight := Some(s.started), running := s.running[s.started := false], started := s.started + 1, dirty := false)
  }

  /** `counts` is what `isHint` says of the frame. */
  function Hint(cfg: Config, s: State, now: real, counts: bool): State {
    if s.disposed || !counts then s
    else if cfg.coalesceMs <= 0.0 then Read(s.(dirty := true))
    else s.(dirty := true,
            coalesceTimer := if s.coalesceTimer.None? then Some(now + cfg.coalesceMs) else s.coalesceTimer)
  }

  function SetLive(cfg: Config, s: State, now: real, next: bool): State {
    if s.disposed || next == s.live then s
    else if next then Read(s.(live := true))
    else if s.inFlight.None? then Schedule(cfg, s.(live := false), now)
    else s.(live := false)
  }

  function SetHidden(s: State, now: real, next: bool): State {
    if s.disposed || next == s.hidden then s
    else if next then s.(hidden := true, pollTimer := None)
    else if s.dueAt.None? || s.inFlight.Some? then s.(hidden := false)
    else if s.dueAt.value - now <= 0.0 then Read(s.(hidden := false, dueAt := None))
    else s.(hidden := false, pollTimer := Some(now + (s.dueAt.value - now)))
  }

  function PollFires(s: State): State {
    if s.pollTimer.None? then s else Read(s.(pollTimer := None, dueAt := None))
  }

  function CoalesceFires(s: State): State {
    if s.coalesceTimer.None? then s else Read(s.(coalesceTimer := None))
  }

  /** The read's promise settles: its outcome is reported unless the loop is disposed. */
  function Settle(s: State, read: nat, ok: bool): State {
    if read !in s.running || s.running[read] then s
    else if s.disposed then s.(running := s.running[read := true])
    else s.(running := s.running[read := true],
            failures := if ok then 0 else s.failures + 1,
            reports := s.reports + [if ok then Data(read) else Error(read)])
  }

  /** The last handler of a settled read: the queued read starts, or the next poll is worked out. */
  function Finish(cfg: Config, s: State, now: real, read: nat): State {
    if read !in s.running || !s.running[read] then s
    else if s.inFlight != Some(read) then s.(running := s.running - {read})
    else if s.disposed then s.(running := s.running - {read}, inFlight := None)
    else if s.queued then Read(s.(running := s.running - {read}, inFlight := None, queued := false))
    else Schedule(cfg, s.(running := s.running - {read}, inFlight := None), now)
  }

  function Dispose(s: State): State {
    if s.disposed then s
    else s.(disposed := true, pollTimer := None, coalesceTimer := None, dueAt := None, queued := false, inFlight := None)
  }

  function Create(cfg: Config, live: bool, hidden: bool, immediate: bool, now: real): State {
    var s := State(false, live, hidden, 0, None, false, None, None, None, map[], 0, [], false, now);
    if immediate then Read(s) else Schedule(cfg, s, now)
  }

  // ---- Runs -------------------------------------------------------------------------

  datatype Event =
    | HintEvent(counts: bool)
    | RefreshEvent
    | LiveEvent(next: bool)
    | HiddenEvent(next: bool)
    | PollEvent
    | CoalesceEvent
    | SettleEvent(read: nat, ok: bool)
    | FinishEvent(read: nat)
    | DisposeEvent

  function Step(cfg: Config, s: State, now: real, e: Event): State {
    match e
    case HintEvent(counts) => Hint(cfg, s, now, counts)
    case RefreshEvent => Read(s)
    case LiveEvent(next) => SetLive(cfg, s, now, next)
    case HiddenEvent(next) => SetHidden(s, now, next)
    case PollEvent => PollFires(s)
    case CoalesceEvent => CoalesceFires(s)
    case SettleEvent(read, ok) => Settle(s, read, ok)
    case FinishEvent(read) => Finish(cfg, s, now, read)
    case DisposeEvent => Dispose(s)
  }

  datatype Timed = Timed(now: real, event: Event)

  function Run(cfg: Config, s: State, events: seq<Timed>): State
    decreases |events|
  {
    if events == [] then s else Run(cfg, Step(cfg, s, events[0].now, events[0].event), events[1..])
  }

  // ---- The delay -----------------------------------------------------------------------

  lemma {:induction false} Pow2Grows(a: nat, b: nat)
    requires a <= b
    ensures 1.0 <= Pow2(a) <= Pow2(b)
  {
    if a < b { Pow2Grows(a, b - 1); }
    else if a > 0 { Pow2Grows(a - 1, a - 1); }
  }

  lemma LongerFactor(base: real, a: real, b: real)
    requires base > 0.0 && a <= b
    ensures Times(base, a) <= Times(base, b)
  {
  }

  /** Never shorter than the base nor longer than five times it; the base itself when nothing failed. */
  lemma DelayBounds(failures: int, base: real, maxFactor: Num)
    ensures base <= 0.0 ==> Delay(failures, Finite(base), maxFactor) == Finite(base)
    ensures base > 0.0 ==> Delay(failures, Finite(base), maxFactor).Finite?
                           && base <= Delay(failures, Finite(base), maxFactor).value <= MAX_BACKOFF * base
    ensures Delay(0, Finite(base), maxFactor) == Finite(base)
  {
    if base > 0.0 && failures > 0 {
      Pow2Grows(0, failures);
      LongerFactor(base, 1.0, Factor(failures, maxFactor));
      LongerFactor(base, Factor(failures, maxFactor), MAX_BACKOFF);
    }
  }

  /** Each failure doubles the wait, up to the ceiling. */
  lemma DelayDoubles(failures: nat, base: real, maxFactor: Num)
    requires base > 0.0
    ensures Delay(failures + 1, Finite(base), maxFactor).value
            == Min(2.0 * Delay(failures, Finite(base), maxFactor).value, Times(base, Cap(maxFactor)))
  {
    var more, cap := Factor(failures + 1, maxFactor), Cap(maxFactor);
    Pow2Grows(0, failures);
    if failures == 0 {
      assert Pow2(1) == 2.0 * Pow2(0) == 2.0;
      TimesMin(base, 2.0, cap);
    } else {
      TimesMin(base, 2.0 * Factor(failures, maxFactor), cap);
      assert more == Min(2.0 * Factor(failures, maxFactor), cap);
      assert Times(base, 2.0 * Factor(failures, maxFactor)) == 2.0 * Times(base, Factor(failures, maxFactor));
    }
  }

  lemma TimesMin(base: real, a: real, b: real)
    requires base > 0.0
    ensures Times(base, Min(a, b)) == Min(Times(base, a), Times(base, b))
  {
  }

  /** One more failure never shortens the wait, and from the third on it is the ceiling. */
  lemma DelayGrows(a: nat, b: nat, base: real, maxFactor: Num)
    requires a <= b && base > 0.0
    ensures Delay(a, Finite(base), maxFactor).value <= Delay(b, Finite(base), maxFactor).value
    ensures a >= 3 ==> Delay(a, Finite(base), maxFactor) == Finite(base * Cap(maxFactor))
  {
    Pow2Grows(a, b);
    if a == 0 {
      DelayBounds(b, base, maxFactor);
    } else {
      LongerFactor(base, Factor(a, maxFactor), Factor(b, maxFactor));
      if a >= 3 {
        Pow2Grows(3, a);
        assert Pow2(3) == 2.0 * Pow2(2) == 4.0 * Pow2(1) == 8.0 * Pow2(0) == 8.0;
      }
    }
  }

  // ---- The options ------------------------------------------------------------------------

  /** An option given as a number counts as it is, or as nothing when it is negative; otherwise its default does. */
  predicate Reads(v: Option<Num>, fallback: real, option: real) {
    if v.Some? && v.value.Finite? then (if v.value.value < 0.0 then option == 0.0 else option == v.value.value)
    else option == fallback
  }

  /**
   * What the loop is configured with: intervals and window as given or by
   * default, and a backoff ceiling that is the given one brought between one
   * and five, five without one.
   */
  lemma OptionsAreRead(coalesceMs: Option<Num>, livePollMs: Option<Num>, pollMs: Option<Num>, maxBackoff: Option<Num>)
    ensures var cfg := MakeConfig(coalesceMs, livePollMs, pollMs, maxBackoff);
      && Reads(coalesceMs, 0.0, cfg.coalesceMs)
      && Reads(livePollMs, 30000.0, cfg.livePollMs)
      && Reads(pollMs, 5000.0, cfg.pollMs)
      && 1.0 <= Cap(cfg.maxBackoff) <= 5.0
      && (maxBackoff.Some? && maxBackoff.value.Finite? && 1.0 <= maxBackoff.value.value <= 5.0 ==>
            Cap(cfg.maxBackoff) == maxBackoff.value.value)
      && (maxBackoff.None? || maxBackoff.value.NotFinite? || maxBackoff.value.value > 5.0 ==> Cap(cfg.maxBackoff) == 5.0)
      && (maxBackoff.Some? && maxBackoff.value.Finite? && maxBackoff.value.value < 1.0 ==> Cap(cfg.maxBackoff) == 1.0)
  {
  }
}
