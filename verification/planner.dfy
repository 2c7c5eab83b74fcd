/** BuildPlan: strategy choice and fire schedule, and what they promise the engine and the
    plan's hash. */
module Planner {
  import opened Goals
  import opened Instants
  import opened Options
  import opened PlanBytes
  import opened SlotGrid
  import Engine
  import Lifecycle
  import SlotRanking

  const PROBE_LEAD: nat := 90 * SECOND
  const PROBE_WIDTH: nat := 300 * SECOND

  datatype CalendarDay = CalendarDay(date: Date, available: bool)

  /** release_days_ahead and release_time_local; all zero means none. */
  datatype ReleaseConfig = ReleaseConfig(daysAhead: int, timeLocal: SlotRanking.WallTime)

  const NO_CONFIG := ReleaseConfig(0, SlotRanking.WallTime(0, 0, 0))

  /** A time zone, as the instants Go's time package derives from it. */
  datatype Zone = Zone(
    midnight: Date -> Instant,
    startOfDay: Instant -> Instant,
    endOfDay: Instant -> Instant,
    dayBefore: Date -> Instant,
    release: (Date, ReleaseConfig) -> Instant)

  /** What the planner's clock reads: instants count from year 1, and a probe starts its lead
      before the drop. */
  type Present = t: Instant | t > PROBE_LEAD witness DAY

  /** zone is what the venue's tz name stands for; continuousUntil 0 is the unset time. */
  datatype PlanInput = PlanInput(
    goal: Goal, venue: Venue, zone: Zone, now: Present, calendar: seq<CalendarDay>,
    observed: Option<Instant>, config: ReleaseConfig, continuousUntil: Instant)

  /** Panic is the one of ExpandSlots. */
  datatype PlannerError = MissingTz | TargetInPast | BadWindow | Panic

  /** calendarShowsBookable: the first entry for the date decides. */
  predicate ShowsBookable(days: seq<CalendarDay>, date: Date) {
    if days == [] then false
    else if days[0].date == date then days[0].available
    else ShowsBookable(days[1..], date)
  }

  method FindBookable(days: seq<CalendarDay>, date: Date) returns (b: bool)
    ensures b == ShowsBookable(days, date)
  {
    assert days[0..] == days;
    for i := 0 to |days|
      invariant ShowsBookable(days, date) == ShowsBookable(days[i..], date)
    {
      assert days[i..][0] == days[i] && days[i..][1..] == days[i + 1..];
      if days[i].date == date {
        return days[i].available;
      }
    }
    return false;
  }

  function DropGuess(req: PlanInput): Instant {
    var guess := req.zone.dayBefore(req.goal.date);
    if guess < req.now then req.now else guess
  }

  function SelectStrategy(req: PlanInput): Result<Strategy, PlannerError> {
    if req.venue.tz.None? then Err(MissingTz)
    else if req.zone.midnight(req.goal.date) < req.zone.startOfDay(req.now) then Err(TargetInPast)
    else if ShowsBookable(req.calendar, req.goal.date) then
      Ok(Continuous(if req.continuousUntil == 0 then req.zone.endOfDay(req.now) else req.continuousUntil))
    else if req.observed.Some? then Ok(Explicit(req.observed.value))
    else if req.config != NO_CONFIG then Ok(Explicit(req.zone.release(req.goal.date, req.config)))
    else
      var from := DropGuess(req) - PROBE_LEAD;
      Ok(Discovered(from, from + PROBE_WIDTH))
  }

  /** Some entry for the date is available and no entry before it is for the date. */
  ghost predicate FirstEntryOpen(days: seq<CalendarDay>, date: Date) {
    exists i :: 0 <= i < |days| && days[i] == CalendarDay(date, true) && forall j | 0 <= j < i :: days[j].date != date
  }

  lemma {:induction false} BookableIsFirstEntry(days: seq<CalendarDay>, date: Date)
    ensures ShowsBookable(days, date) <==> FirstEntryOpen(days, date)
  {
    if days != [] && days[0].date != date {
      BookableIsFirstEntry(days[1..], date);
      if FirstEntryOpen(days, date) {
        var i :| 0 <= i < |days| && days[i] == CalendarDay(date, true) && forall j | 0 <= j < i :: days[j].date != date;
        assert days[1..][i - 1] == days[i];
        assert forall j | 0 <= j < i - 1 :: days[1..][j].date != date;
      }
      if FirstEntryOpen(days[1..], date) {
        var r := days[1..];
        var i :| 0 <= i < |r| && r[i] == CalendarDay(date, true) && forall j | 0 <= j < i :: r[j].date != date;
        assert days[i + 1] == r[i];
        assert forall j | 0 < j < i + 1 :: days[j].date != date by {
          forall j | 0 < j < i + 1 ensures days[j].date != date {
            assert r[j - 1] == days[j];
          }
        }
      }
    } else if days != [] {
      assert days[0].available ==> days[0] == CalendarDay(date, true);
    }
  }

  /** Planning is refused for a venue without a zone, and then for exactly the dates whose
      midnight lies before the venue's present day. */
  lemma RefusedExactly(req: PlanInput)
    ensures SelectStrategy(req) == Err(MissingTz) <==> req.venue.tz.None?
    ensures SelectStrategy(req) == Err(TargetInPast) <==>
            req.venue.tz.Some? && req.zone.startOfDay(req.now) > req.zone.midnight(req.goal.date)
    ensures SelectStrategy(req).Ok? <==>
            req.venue.tz.Some? && req.zone.startOfDay(req.now) <= req.zone.midnight(req.goal.date)
  {
  }

  /** The strategy a request calls for: an open date is polled until the time given, or else the
      end of the venue's day; otherwise an observed release is waited for, or else a configured
      one; and without either a probe of five minutes starts 90 seconds before the guess, the
      later of the present and the day before the date. */
  ghost predicate CallsFor(req: PlanInput, s: Strategy) {
    var open, noSignal := FirstEntryOpen(req.calendar, req.goal.date), req.observed.None? && req.config == NO_CONFIG;
    && (s.Continuous? <==> open)
    && (s.Explicit? <==> !open && !noSignal)
    && (s.Discovered? <==> !open && noSignal)
    && (s.Continuous? && req.continuousUntil != 0 ==> s.until == req.continuousUntil)
    && (s.Continuous? && req.continuousUntil == 0 ==> s.until == req.zone.endOfDay(req.now))
    && (s.Explicit? && req.observed.Some? ==> s.at == req.observed.value)
    && (s.Explicit? && req.observed.None? ==> s.at == req.zone.release(req.goal.date, req.config))
    && (s.Discovered? ==>
          && s.probeUntil == s.probeFrom + 300_000_000_000
          && req.now <= s.probeFrom + 90_000_000_000
          && req.zone.dayBefore(req.goal.date) <= s.probeFrom + 90_000_000_000
          && s.probeFrom + 90_000_000_000 in {req.now, req.zone.dayBefore(req.goal.date)})
  }

  /** Each strategy is chosen exactly when its signal is there and no stronger one is: an
      open date, then an observed release, then a configured one. */
  lemma StrategyByStrongestSignal(req: PlanInput)
    ensures SelectStrategy(req).Ok? ==> CallsFor(req, SelectStrategy(req).value)
  {
    BookableIsFirstEntry(req.calendar, req.goal.date);
  }

  /** The instant the schedule of each strategy is anchored at. */
  function FireTime(s: Strategy, now: Instant): Instant
    requires s.Discovered? ==> s.probeFrom <= s.probeUntil
  {
    match s
    case Explicit(at) => at
    case Discovered(from, until) => from + (until - from) / 2
    case _ => now
  }

  function DropMoment(s: Strategy, now: Instant): Instant {
    match s
    case Explicit(at) => at
    case Discovered(from, _) => from
    case _ => now
  }

  method FireSchedule(s: Strategy, slots: seq<SlotRanking.SlotPreference>, now: Instant)
    returns (drop: Instant, schedule: seq<Instant>)
    requires s.Explicit? || s.Continuous? || (s.Discovered? && s.probeFrom <= s.probeUntil)
    ensures drop == DropMoment(s, now)
    ensures |schedule| == |slots| && forall i | 0 <= i < |schedule| :: schedule[i] == FireTime(s, now)
  {
    drop := DropMoment(s, now);
    var a := new Instant[|slots|];
    for i := 0 to |slots|
      invariant forall k | 0 <= k < i :: a[k] == FireTime(s, now)
    {
      a[i] := FireTime(s, now);
    }
    schedule := a[..];
  }

  /** What a successful BuildPlan returns, up to the hash and the notes. */
  ghost predicate IsPlan(req: PlanInput, p: Plan) {
    && SelectStrategy(req) == Ok(p.strategy)
    && Expandable(req.goal.timePrefs.start, req.goal.timePrefs.end)
    && p.goal == req.goal && p.venue == req.venue && !p.signingRequired && p.version == 1 && p.computedAt == req.now
    && p.dropMoment == DropMoment(p.strategy, req.now)
    && |p.fireSchedule| == |Expanded(req.goal.timePrefs, req.goal.constraints)|
    && (p.strategy.Discovered? ==> p.strategy.probeFrom <= p.strategy.probeUntil)
    && forall i | 0 <= i < |p.fireSchedule| :: p.fireSchedule[i] == FireTime(p.strategy, req.now)
  }

  /** The moments of a plan: an Explicit one drops and fires at its instant, a Continuous one at
      the present, and a Discovered one drops when the probe starts and fires halfway through it. */
  ghost predicate Timed(req: PlanInput, p: Plan) {
    var fire := if p.strategy.Discovered? then p.strategy.probeFrom + 150_000_000_000
                else if p.strategy.Explicit? then p.strategy.at else req.now;
    && (forall i | 0 <= i < |p.fireSchedule| :: p.fireSchedule[i] == fire)
    && p.dropMoment == if p.strategy.Discovered? then p.strategy.probeFrom else fire
  }

  lemma PlanIsTimed(req: PlanInput, p: Plan)
    requires IsPlan(req, p)
    ensures CallsFor(req, p.strategy) && Timed(req, p)
  {
    StrategyByStrongestSignal(req);
    hide Expanded;
  }

  method BuildPlan(req: PlanInput, digest: string -> string, notes: seq<string>)
    returns (r: Result<Plan, PlannerError>)
    ensures r == Err(MissingTz) <==> req.venue.tz.None?
    ensures r == Err(TargetInPast) <==>
            req.venue.tz.Some? && req.zone.startOfDay(req.now) > req.zone.midnight(req.goal.date)
    ensures r.Ok? <==>
            && req.venue.tz.Some? && req.zone.startOfDay(req.now) <= req.zone.midnight(req.goal.date)
            && Expandable(req.goal.timePrefs.start, req.goal.timePrefs.end)
    ensures r == Err(BadWindow) <==>
            && req.venue.tz.Some? && req.zone.startOfDay(req.now) <= req.zone.midnight(req.goal.date)
            && After(req.goal.timePrefs.start, req.goal.timePrefs.end)
    ensures r.Ok? ==> CallsFor(req, r.value.strategy) && Timed(req, r.value)
    ensures r.Ok? ==> IsPlan(req, r.value) && Bytes(r.value).Ok? && r.value.hash == digest(Bytes(r.value).value)
  {
    hide Expanded, Bytes, CallsFor, Timed;
    RefusedExactly(req);
    var strategy := SelectStrategy(req);
    var bookable := FindBookable(req.calendar, req.goal.date);
    if strategy.Err? {
      return Err(strategy.error);
    }
    var slots := ExpandSlots(req.goal.timePrefs, req.goal.constraints);
    if slots.Err? {
      return Err(if slots.error.Panic? then PlannerError.Panic else BadWindow);
    }
    var drop, schedule := FireSchedule(strategy.value, slots.value, req.now);
    var plan := Plan(req.goal, req.venue, drop, strategy.value, schedule, false, "", notes, 1, req.now);
    BytesDecidePlan(plan, plan);
    var bytes := CanonicalBytes(plan);
    HashLeavesBytes(plan, digest(bytes.value));
    PlanIsTimed(req, plan.(hash := digest(bytes.value)));
    return Ok(plan.(hash := digest(bytes.value)));
  }

  /** The hash is no part of what is hashed. */
  lemma HashLeavesBytes(p: Plan, hash: string)
    requires Bytes(p).Ok?
    ensures Bytes(p.(hash := hash)) == Bytes(p)
  {
    hide Bytes;
    BytesDecidePlan(p, p);
    BytesDecidePlan(p.(hash := hash), p);
  }

  /** The release the engine is given, on its own time scale. */
  function ReleaseOf(s: Strategy): Lifecycle.Release {
    match s
    case Explicit(at) => Lifecycle.Explicit(at + Engine.ZERO_TIME)
    case Discovered(f, u) => Lifecycle.Discovered(f + Engine.ZERO_TIME, u + Engine.ZERO_TIME)
    case Continuous(u) => Lifecycle.Continuous(u + Engine.ZERO_TIME)
    case _ => Lifecycle.NoRelease
  }

  /** Every plan fits the engine: one fire time per slot and none before the drop moment, a
      release whose arguments the engine accepts, and for Explicit and Discovered a drop
      moment that is the engine's wake time; a probe lasts five minutes and ends after now. */
  lemma PlansFitTheEngine(req: PlanInput, p: Plan)
    requires IsPlan(req, p) && forall t :: req.zone.endOfDay(t) > 0
    ensures |p.fireSchedule| == Count(req.goal.timePrefs.start, req.goal.timePrefs.end) * |Tables(req.goal.constraints)|
    ensures forall i | 0 <= i < |p.fireSchedule| :: p.dropMoment <= p.fireSchedule[i]
    ensures Engine.Accepts(ReleaseOf(p.strategy))
    ensures p.strategy.Explicit? || p.strategy.Discovered? ==>
              Engine.Stamped(ReleaseOf(p.strategy), Some(p.dropMoment + Engine.ZERO_TIME))
    ensures p.strategy.Discovered? ==>
              p.strategy.probeUntil == p.strategy.probeFrom + PROBE_WIDTH && p.strategy.probeUntil > req.now
  {
    var w := req.goal.timePrefs;
    CrossLength(OrderedTimes(w.start, w.end, w.priority), Tables(req.goal.constraints));
  }

  /** The same request made at another time. */
  function At(req: PlanInput, now: Present): PlanInput { req.(now := now) }

  /** The kind of strategy does not depend on the time. */
  lemma SameKindAnyTime(req: PlanInput, later: Present, p: Plan, q: Plan)
    requires IsPlan(req, p) && IsPlan(At(req, later), q)
    ensures p.strategy.Explicit? == q.strategy.Explicit? && p.strategy.Discovered? == q.strategy.Discovered?
    ensures p.strategy.Continuous? == q.strategy.Continuous?
    ensures p.strategy.Explicit? || p.strategy.Discovered? || p.strategy.Continuous?
  {
    hide Expanded;
  }

  lemma SameSchedule(p: Plan, q: Plan, t: Instant)
    requires |p.fireSchedule| == |q.fireSchedule|
    requires forall i | 0 <= i < |p.fireSchedule| :: p.fireSchedule[i] == t && q.fireSchedule[i] == t
    ensures p.fireSchedule == q.fireSchedule
  {
  }

  /** Two successful plans of one request at two times hash alike exactly when the strategy is
      Explicit, or Discovered with the guessed drop moved by neither time or by both alike, or
      Continuous and the times are equal: a Continuous plan hashes its own time. */
  lemma HashStableExactly(req: PlanInput, later: Present, p: Plan, q: Plan)
    requires IsPlan(req, p) && IsPlan(At(req, later), q)
    ensures Bytes(p) == Bytes(q) <==>
            || p.strategy.Explicit?
            || (p.strategy.Discovered? && DropGuess(req) == DropGuess(At(req, later)))
            || req.now == later
  {
    hide Expanded, Bytes;
    SameKindAnyTime(req, later, p, q);
    BytesDecidePlan(p, q);
    BytesDecidePlan(q, p);
    if p.strategy == q.strategy && p.dropMoment == q.dropMoment {
      SameSchedule(p, q, FireTime(p.strategy, req.now));
    }
  }

  /** Any goal whose window expands, at a venue with open tables on its date: the plans of two
      times hash apart. */
  lemma ContinuousRehashes(goal: Goal, now: Present, later: Present) returns (req: PlanInput, p: Plan, q: Plan)
    requires Expandable(goal.timePrefs.start, goal.timePrefs.end) && now != later
    ensures IsPlan(req, p) && IsPlan(At(req, later), q) && req.goal == goal && req.now == now
    ensures p.strategy.Continuous? && Bytes(p) != Bytes(q)
  {
    hide Bytes, Expanded;
    var zone := Zone(_ => 0, _ => 0, _ => DAY, _ => 0, (_, _) => 0);
    var venue := Venue("resy", "1", "", Some("UTC"));
    req := PlanInput(goal, venue, zone, now, [CalendarDay(goal.date, true)], None, NO_CONFIG, 0);
    p := ContinuousPlan(req, now);
    q := ContinuousPlan(req, later);
    HashStableExactly(req, later, p, q);
  }

  function ContinuousPlan(req: PlanInput, now: Present): Plan {
    var schedule := seq(|Expanded(req.goal.timePrefs, req.goal.constraints)|, _ => now);
    Plan(req.goal, req.venue, now, Continuous(DAY), schedule, false, "", [], 1, now)
  }

  /** So a Discovered plan keeps its hash while the guessed drop is not before either time. */
  lemma DiscoveredStableUntilGuess(req: PlanInput, later: Present, p: Plan, q: Plan)
    requires IsPlan(req, p) && IsPlan(At(req, later), q)
    requires p.strategy.Discovered?
    requires req.zone.dayBefore(req.goal.date) >= req.now && req.zone.dayBefore(req.goal.date) >= later
    ensures Bytes(p) == Bytes(q)
  {
    HashStableExactly(req, later, p, q);
  }
}
