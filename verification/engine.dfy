/** Persisted snipes and the engine's gates over them: Submit, Load, Transition, Run
    with its polling loops, and the booking race with its status changes. */
module Engine {
  import opened Options
  import opened Lifecycle
  import BookingRace
  import TimerRace = WaitAndFire
  import opened SlotRanking

  // ---- the store

  datatype EventType =
    | EventSubmitted | EventScheduled | EventDiscovered | EventReleased | EventFound
    | EventBookAttempted | EventBooked | EventFailed | EventCanceled | EventExpired

  datatype Event = Event(kind: EventType, at: int)

  datatype Row = Row(intent: Intent, status: string, scheduledAt: Option<int>,
                     result: Option<Reservation>, createdAt: int, updatedAt: int)

  type Rows = map<SnipeId, Row>

  type EventLog = map<SnipeId, seq<Event>>

  type Trails = map<SnipeId, seq<Status>>

  function RowOf(s: Snapshot): Row {
    Row(s.intent, StatusName(s.status), s.scheduledAt, s.result, s.createdAt, s.updatedAt)
  }

  /** kind is an event that records a change to the status. */
  predicate Records(kind: EventType, to: Status) {
    match to
    case Submitted => kind == EventSubmitted
    case Scheduled => kind == EventScheduled
    case Discovering => kind == EventDiscovered
    case Awaiting => kind == EventReleased || kind == EventFound
    case Finding => kind == EventFound
    case Booking => kind == EventBookAttempted
    case Booked => kind == EventBooked
    case Failed => kind == EventFailed
    case Canceled => kind == EventCanceled
    case Expired => kind == EventExpired
  }

  /** What an event says of the status it records: EventFound alone can be of two. */
  lemma RecordedStatus(kind: EventType, a: Status, b: Status)
    requires Records(kind, a) && Records(kind, b)
    ensures a == b || (kind == EventFound && {a, b} == {Awaiting, Finding})
  {
  }

  function EventsAt(events: EventLog, id: SnipeId): seq<Event> {
    if id in events then events[id] else []
  }

  function TrailAt(trails: Trails, id: SnipeId): seq<Status> {
    if id in trails then trails[id] else []
  }

  /** es records the trail t: one matching event per status change. The Submitted event
      is appended after the row is created, and may be missing. */
  ghost predicate Audited(t: seq<Status>, es: seq<Event>) {
    if |t| <= 1 then es == [] || (|es| == 1 && es[0].kind == EventSubmitted)
    else es != [] && Records(es[|es| - 1].kind, t[|t| - 1]) && Audited(t[..|t| - 1], es[..|es| - 1])
  }

  lemma {:induction false} AuditedCount(t: seq<Status>, es: seq<Event>)
    requires LegalTrail(t) && Audited(t, es)
    ensures |t| - 1 <= |es| <= |t|
    ensures forall k | 0 <= k < |es| :: Records(es[k].kind, t[k + |t| - |es|])
  {
    if |t| > 1 {
      AuditedCount(t[..|t| - 1], es[..|es| - 1]);
    }
  }

  /** One row against its history: a legal trail ending in the stored status, an audit
      log of it, and a result exactly when Booked. */
  ghost predicate GoodRow(row: Row, t: seq<Status>, es: seq<Event>) {
    && LegalTrail(t)
    && Audited(t, es)
    && row.status == StatusName(t[|t| - 1])
    && (row.result.Some? <==> t[|t| - 1] == Booked)
  }

  ghost predicate GoodTables(rows: Rows, events: EventLog, trails: Trails) {
    && trails.Keys == rows.Keys
    && events.Keys <= rows.Keys
    && forall id | id in rows :: GoodRow(rows[id], trails[id], EventsAt(events, id))
  }

  lemma RowFacts(rows: Rows, events: EventLog, trails: Trails, id: SnipeId)
    requires GoodTables(rows, events, trails) && id in rows
    ensures id in trails && trails[id] != [] && rows[id].status == StatusName(trails[id][|trails[id]| - 1])
    ensures rows[id].result.Some? <==> trails[id][|trails[id]| - 1] == Booked
  {
    assert GoodRow(rows[id], trails[id], EventsAt(events, id));
  }

  /** A change written with its event keeps a row good exactly when it is a legal step from
      what the row held, and its result matches its new status. */
  lemma RowStep(row: Row, t: seq<Status>, es: seq<Event>, next: Row, to: Status, e: Event)
    requires GoodRow(row, t, es)
    requires next.status == StatusName(to) && Records(e.kind, to)
    ensures GoodRow(next, t + [to], es + [e])
       <==> CanTransition(t[|t| - 1], to) && (next.result.Some? <==> to == Booked)
  {
    assert (t + [to])[..|t|] == t && (es + [e])[..|es|] == es;
  }

  class Store {
    var rows: Rows
    var events: EventLog
    /** Every status a row has held, oldest first. */
    ghost var trails: Trails

    constructor ()
      ensures Valid() && rows == map[] && events == map[] && trails == map[]
    {
      rows, events, trails := map[], map[], map[];
    }

    ghost predicate Valid()
      reads this
    {
      GoodTables(rows, events, trails)
    }

    method CreateSnipe(s: SnipeState, env: Environment) returns (ok: bool)
      modifies this, env`faults
      ensures env.faults >= old(env.faults) && (!ok ==> s.id in old(rows) || env.faults > old(env.faults))
      ensures ok ==> s.id !in old(rows)
      ensures ok ==> rows == old(rows)[s.id := RowOf(s.View())] && trails == old(trails)[s.id := [s.status]]
      ensures !ok ==> unchanged(this)
      ensures events == old(events)
    {
      ok := env.StoreCall();
      ok := ok && s.id !in rows;
      if ok {
        rows := rows[s.id := Row(s.intent, StatusName(s.status), s.scheduledAt, s.result, s.createdAt, s.updatedAt)];
        trails := trails[s.id := [s.status]];
      }
    }

    method AppendEvent(id: SnipeId, e: Event, env: Environment) returns (ok: bool)
      modifies this`events, env`faults
      ensures env.faults >= old(env.faults) && (!ok ==> env.faults > old(env.faults))
      ensures events == if ok then old(events)[id := EventsAt(old(events), id) + [e]] else old(events)
    {
      ok := env.StoreCall();
      if ok { events := events[id := EventsAt(events, id) + [e]]; }
    }

    /** One transaction: overwrite the row whatever its status was, and append the event. */
    method TransitionSnipe(s: SnipeState, e: Event, env: Environment) returns (ok: bool)
      modifies this, env`faults
      ensures env.faults >= old(env.faults) && (!ok ==> s.id !in old(rows) || env.faults > old(env.faults))
      ensures ok ==> s.id in old(rows)
      ensures ok ==> rows == old(rows)[s.id := RowOf(s.View()).(createdAt := old(rows)[s.id].createdAt)]
      ensures ok ==> events == old(events)[s.id := EventsAt(old(events), s.id) + [e]]
      ensures ok ==> trails == old(trails)[s.id := TrailAt(old(trails), s.id) + [s.status]]
      ensures !ok ==> unchanged(this)
    {
      ok := env.StoreCall();
      ok := ok && s.id in rows;
      if ok {
        var created := rows[s.id].createdAt;
        rows := rows[s.id := Row(s.intent, StatusName(s.status), s.scheduledAt, s.result, created, s.updatedAt)];
        events := events[s.id := EventsAt(events, s.id) + [e]];
        trails := trails[s.id := TrailAt(trails, s.id) + [s.status]];
      }
    }

    /** Decode a row: the fresh state is walked to the stored status. */
    method GetSnipe(id: SnipeId, env: Environment) returns (s: Option<SnipeState>)
      modifies env`faults
      ensures env.faults >= old(env.faults)
      ensures s.None? ==> id !in rows || ParseStatus(rows[id].status).None? || env.faults > old(env.faults)
      ensures s.Some? ==> id in rows && fresh(s.value) && s.value.id == id
      ensures s.Some? ==> RowOf(s.value.View()) == rows[id] && ParseStatus(rows[id].status) == Some(s.value.status)
    {
      var called := env.StoreCall();
      if !called || id !in rows { return None; }
      var r := rows[id];
      var status := ParseStatus(r.status);
      if status.None? { return None; }
      var st := new SnipeState(id, r.intent, r.createdAt);
      st.updatedAt, st.scheduledAt, st.result := r.updatedAt, r.scheduledAt, r.result;
      var ok := st.ForceStatus(status.value);
      NameOfParsed(r.status);
      s := Some(st);
    }
  }

  lemma NameOfParsed(name: string)
    requires ParseStatus(name).Some?
    ensures StatusName(ParseStatus(name).value) == name
  {
    FoundHasName(AllStatuses, name);
  }

  lemma {:induction false} FoundHasName(candidates: seq<Status>, name: string)
    requires FindStatus(candidates, name).Some?
    ensures StatusName(FindStatus(candidates, name).value) == name
  {
    if StatusName(candidates[0]) != name {
      FoundHasName(candidates[1..], name);
    }
  }

  // ---- the environment: clock, context, provider

  datatype CalendarDay = CalendarDay(date: int, available: bool)

  datatype FindAnswer = Slots(slots: seq<Slot>) | InventoryEmpty | FindError

  /** What one provider call answered. */
  datatype PollAnswer = Listed(days: Option<seq<CalendarDay>>) | Found(found: FindAnswer)

  /** One provider call: the clock reading that allowed it, when it was made, the date it asked
      about, and the answer. */
  datatype Poll = Poll(read: int, at: int, date: int, answer: PollAnswer)
  {
    /** The date has an open entry, or a slot. */
    ghost predicate Shows() {
      match answer
      case Listed(days) => days.Some? && exists i :: 0 <= i < |days.value| && days.value[i] == CalendarDay(date, true)
      case Found(found) => found.Slots? && |found.slots| > 0
    }

    ghost predicate Broke() { answer == Listed(None) || answer == Found(FindError) }
  }

  class Environment {
    var clock: int
    var cancelled: bool
    ghost var polls: seq<Poll>
    /** How many calls of the store have failed. */
    ghost var faults: nat

    constructor () {
      clock, cancelled, polls, faults := 0, false, [], 0;
    }

    /** Whether the store carries out the call made of it. */
    method StoreCall() returns (ok: bool)
      modifies this`faults
      ensures faults == old(faults) + if ok then 0 else 1
    {
      ok := *;
      if !ok { faults := faults + 1; }
    }

    /** Time passes and the context may be cancelled between any two actions. */
    method Drift()
      modifies this`clock, this`cancelled
      ensures polls == old(polls)
      ensures clock >= old(clock) && (old(cancelled) ==> cancelled)
    {
      var dt: int, c: bool := *, *;
      clock, cancelled := if dt > 0 then clock + dt else clock, cancelled || c;
    }

    method Cancel()
      modifies this`cancelled
      ensures cancelled
    {
      cancelled := true;
    }

    method Now() returns (t: int)
      modifies this`clock, this`cancelled
      ensures polls == old(polls)
      ensures t == clock >= old(clock) && (old(cancelled) ==> cancelled)
    {
      Drift();
      t := clock;
    }

    /** waitWithCtx: a full wait moves the clock by at least d. */
    method Wait(d: int) returns (ok: bool)
      modifies this`clock, this`cancelled
      ensures polls == old(polls)
      ensures clock >= old(clock) && (old(cancelled) ==> cancelled)
      ensures ok ==> clock >= old(clock) + d
      ensures !ok ==> cancelled
    {
      Drift();
      ok := true;
      if d > 0 {
        var first: bool := *;
        if cancelled && first { return false; }
        clock := clock + d;
      }
    }

    method Calendar(target: int, ghost read: int) returns (days: Option<seq<CalendarDay>>)
      modifies this`clock, this`cancelled, this`polls
      ensures clock >= old(clock) && (old(cancelled) ==> cancelled)
      ensures |polls| == |old(polls)| + 1 && polls[..|old(polls)|] == old(polls)
      ensures var p := polls[|old(polls)|];
              p.read == read && old(clock) <= p.at <= clock && p.date == target && p.answer == Listed(days)
    {
      Drift();
      ghost var at := clock;
      days := *;
      polls := polls + [Poll(read, at, target, Listed(days))];
      Drift();
    }

    method Find(date: int, ghost read: int) returns (answer: FindAnswer)
      modifies this`clock, this`cancelled, this`polls
      ensures clock >= old(clock) && (old(cancelled) ==> cancelled)
      ensures |polls| == |old(polls)| + 1 && polls[..|old(polls)|] == old(polls)
      ensures var p := polls[|old(polls)|];
              p.read == read && old(clock) <= p.at <= clock && p.date == date && p.answer == Found(answer)
    {
      Drift();
      ghost var at := clock;
      answer := *;
      polls := polls + [Poll(read, at, date, Found(answer))];
      Drift();
    }
  }

  predicate ContainsAvailable(days: seq<CalendarDay>, target: int) {
    exists i :: 0 <= i < |days| && days[i].date == target && days[i].available
  }

  const MINIMUM_INTERVAL := 100_000_000  // 100ms in nanoseconds

  function PollInterval(pollFloor: int): (d: int)
    ensures d >= pollFloor && d >= 100_000_000 && (d == pollFloor || d == 100_000_000)
  {
    if pollFloor > MINIMUM_INTERVAL then pollFloor else MINIMUM_INTERVAL
  }

  /** The polls of one loop: allowed only by readings inside the window, spaced by the
      interval, and only the last may have found a table or failed. */
  ghost predicate GoodPolls(ps: seq<Poll>, from: int, until: int, interval: int) {
    && (forall i | 0 <= i < |ps| :: from <= ps[i].read < until && ps[i].read <= ps[i].at)
    && (forall i, j | 0 <= i < j < |ps| :: ps[i].at + interval <= ps[j].read && !ps[i].Shows() && !ps[i].Broke())
  }

  /** None of these polls ended the loop, and an interval has passed since each. */
  ghost predicate WaitedOut(ps: seq<Poll>, interval: int, now: int) {
    forall i | 0 <= i < |ps| :: !ps[i].Shows() && !ps[i].Broke() && ps[i].at + interval <= now
  }

  /** Each poll starts this much after the one before was made. */
  ghost predicate Spaced(ps: seq<Poll>, gap: int) {
    forall i, j | 0 <= i < j < |ps| :: ps[i].at + gap <= ps[j].read
  }

  /** Polls made for this date and no earlier than t. */
  ghost predicate AskedFor(ps: seq<Poll>, date: int, t: int) {
    forall i | 0 <= i < |ps| :: ps[i].date == date && t <= ps[i].read <= ps[i].at
  }

  ghost predicate PollsSince(before: seq<Poll>, after: seq<Poll>, date: int, t: int) {
    before <= after && AskedFor(after[|before|..], date, t)
  }

  lemma AddedSince(before: seq<Poll>, ps: seq<Poll>, date: int, t: int)
    requires AskedFor(ps, date, t)
    ensures PollsSince(before, before + ps, date, t)
  {
    assert (before + ps)[|before|..] == ps;
  }

  lemma AskedForEarlier(ps: seq<Poll>, date: int, s: int, t: int)
    requires AskedFor(ps, date, t) && s <= t
    ensures AskedFor(ps, date, s)
  {
  }

  lemma AskedForMore(ps: seq<Poll>, p: Poll, date: int, t: int)
    requires AskedFor(ps, date, t) && p.date == date && t <= p.read <= p.at
    ensures AskedFor(ps + [p], date, t)
  {
  }

  lemma NothingAsked(polls: seq<Poll>, date: int, t: int)
    ensures AskedFor([], date, t) && PollsSince(polls, polls, date, t)
  {
    AddedSince(polls, [], date, t);
    assert polls + [] == polls;
  }

  /** The empirical floor of 100 ms and the configured one both lie between two polls. */
  lemma GoodPollsSpaced(ps: seq<Poll>, from: int, until: int, pollFloor: int)
    requires GoodPolls(ps, from, until, PollInterval(pollFloor))
    ensures Spaced(ps, pollFloor) && Spaced(ps, 100_000_000)
  {
  }

  lemma NoPolls(from: int, until: int, pollFloor: int)
    ensures GoodPolls([], from, until, PollInterval(pollFloor))
    ensures Spaced([], pollFloor) && Spaced([], 100_000_000)
  {
  }

  lemma PollsExtend(ps: seq<Poll>, p: Poll, from: int, until: int, interval: int, now: int)
    requires GoodPolls(ps, from, until, interval) && WaitedOut(ps, interval, now)
    requires from <= p.read < until && now <= p.read <= p.at
    ensures GoodPolls(ps + [p], from, until, interval)
    ensures forall i | 0 <= i < |ps| :: !ps[i].Shows()
    ensures !p.Shows() ==> forall i | 0 <= i < |ps + [p]| :: !(ps + [p])[i].Shows()
  {
  }

  lemma WaitedOn(ps: seq<Poll>, p: Poll, interval: int, now: int, later: int)
    requires WaitedOut(ps, interval, now) && !p.Shows() && !p.Broke() && now <= later && p.at + interval <= later
    ensures WaitedOut(ps + [p], interval, later)
  {
  }

  lemma NoHits(ps: seq<Poll>, interval: int, now: int)
    requires WaitedOut(ps, interval, now)
    ensures forall i | 0 <= i < |ps| :: !ps[i].Shows() && !ps[i].Broke()
  {
  }

  /** At most ceil((until - from) / interval) polls fit in the window. */
  lemma {:induction false} PollCount(ps: seq<Poll>, from: int, until: int, interval: int)
    requires interval > 0 && GoodPolls(ps, from, until, interval)
    ensures ps != [] ==> (|ps| - 1) * interval < until - from
    ensures ps != [] ==> |ps| <= (until - from + interval - 1) / interval
  {
    if ps != [] {
      LastPollLate(ps, from, until, interval);
      var n := |ps| - 1;
      assert n * interval + interval <= until - from + interval - 1;
      assert (n + 1) * interval == n * interval + interval;
      QuotientBound(n + 1, interval, until - from + interval - 1);
    }
  }

  lemma {:induction false} LastPollLate(ps: seq<Poll>, from: int, until: int, interval: int)
    requires interval > 0 && GoodPolls(ps, from, until, interval) && ps != []
    ensures from + (|ps| - 1) * interval <= ps[|ps| - 1].read
  {
    if |ps| > 1 {
      var k := |ps| - 1;
      assert ps[k - 1].at + interval <= ps[k].read;
      LastPollLate(ps[..k], from, until, interval);
      assert (k - 1) * interval + interval == k * interval;
    }
  }

  lemma MulMono(a: int, b: int, d: int)
    requires a <= b && 0 <= d
    ensures a * d <= b * d
  {
  }

  lemma QuotientBound(q: int, d: int, x: int)
    requires d > 0 && q * d <= x
    ensures q <= x / d
  {
    var f := x / d;
    assert x < (f + 1) * d;
    if q > f {
      MulMono(f + 1, q, d);
      assert false;
    }
  }

  // ---- the engine's handle on a snipe

  datatype Outcome = Done | Illegal | PersistFailed | Invalid | ProviderFailed | ContextDone

  class Handle {
    var inner: SnipeState
    const store: Store

    constructor (inner: SnipeState, store: Store)
      ensures this.inner == inner && this.store == store
    {
      this.inner, this.store := inner, store;
    }

    /** The row is there and its creation time is the handle's. */
    ghost predicate Attached()
      reads this, inner, store
    {
      inner.id in store.rows && inner.createdAt == store.rows[inner.id].createdAt
    }

    /** The handle agrees with its row on everything but the result. */
    ghost predicate InStep()
      reads this, inner, store
    {
      inner.id in store.rows && RowOf(inner.View()).(result := None) == store.rows[inner.id].(result := None)
    }

    /** A handle as Load returns it. */
    ghost predicate Fresh()
      reads this, inner, store
    {
      InStep() && inner.result == store.rows[inner.id].result
    }

    /** The single gate for status changes: check, clone, persist, swap. The check is against
        the handle's status, the store is sound after it as the row's own status decides. */
    method Transition(to: Status, kind: EventType, env: Environment) returns (r: Outcome)
      requires Attached()
      modifies this, store, env`clock, env`cancelled, env`faults
      ensures env.faults >= old(env.faults) && (r == PersistFailed ==> env.faults > old(env.faults))
      ensures env.clock >= old(env.clock) && (old(env.cancelled) ==> env.cancelled) && env.polls == old(env.polls)
      ensures (r == Done || r == Illegal || r == PersistFailed)
      ensures r == Illegal <==> !CanTransition(old(inner.status), to)
      ensures r != Done ==> inner == old(inner) && inner.View() == old(inner.View()) && unchanged(store)
      ensures r == Done ==> fresh(inner) && Moved(old(inner.View()), inner.View(), to, env.clock)
      ensures r == Done ==>
              Recorded(old(store.rows), old(store.events), old(store.trails), Event(kind, inner.updatedAt))
      ensures Attached() && (old(InStep()) ==> InStep()) && (old(Fresh()) || r == Done ==> Fresh())
      ensures old(store.Valid()) && r == Done && Records(kind, to) ==>
              (store.Valid() <==>
                && CanTransition(LastStatus(old(store.trails), inner.id), to)
                && (old(inner.result).Some? <==> to == Booked))
    {
      if !CanTransition(inner.status, to) {
        env.Drift();
        return Illegal;
      }
      var now := env.Now();
      var candidate := inner.Clone();
      var ok := candidate.Transition(to);
      candidate.updatedAt := now;
      r := Persist(candidate, Event(kind, now), env);
    }

    /** Persist a candidate and swap it in only after the commit. */
    method Persist(candidate: SnipeState, e: Event, env: Environment) returns (r: Outcome)
      requires Attached() && candidate.id == inner.id && candidate.intent == inner.intent
      requires candidate.createdAt == inner.createdAt && CanTransition(inner.status, candidate.status)
      modifies this, store, env`faults
      ensures env.faults >= old(env.faults) && (r == PersistFailed ==> env.faults > old(env.faults))
      ensures (r == Done || r == PersistFailed)
      ensures r == PersistFailed ==> inner == old(inner) && inner.View() == old(inner.View()) && unchanged(store)
      ensures r == Done ==> inner == candidate && Recorded(old(store.rows), old(store.events), old(store.trails), e)
      ensures Attached() && (old(InStep()) ==> InStep()) && (old(Fresh()) || r == Done ==> Fresh())
      ensures old(store.Valid()) && r == Done && Records(e.kind, candidate.status) ==>
              (store.Valid() <==>
                && CanTransition(LastStatus(old(store.trails), inner.id), candidate.status)
                && (candidate.result.Some? <==> candidate.status == Booked))
    {
      hide GoodTables;
      var ok := store.TransitionSnipe(candidate, e, env);
      if !ok { return PersistFailed; }
      inner := candidate;
      r := Done;
      if old(store.Valid()) && Records(e.kind, candidate.status) {
        ghost var rows, trails := old(store.rows), old(store.trails);
        RowFacts(rows, old(store.events), trails, candidate.id);
        TablesStep(rows, old(store.events), trails, candidate.id, store.rows[candidate.id], candidate.status, e);
      }
    }

    /** The row, event and trail of this snipe each grew by the one change; others kept theirs. */
    ghost predicate Recorded(rows: Rows, events: EventLog, trails: Trails, e: Event)
      reads this, inner, store
    {
      && inner.id in rows
      && store.rows == rows[inner.id := RowOf(inner.View())]
      && store.events == events[inner.id := EventsAt(events, inner.id) + [e]]
      && store.trails == trails[inner.id := TrailAt(trails, inner.id) + [inner.status]]
    }
  }

  /** TransitionSnipe does not look at the status it overwrites. What it writes keeps the
      tables good exactly when it is a legal step from the last recorded status, and the
      row's result fits the new one. */
  lemma TablesStep(rows: Rows, events: EventLog, trails: Trails,
                   id: SnipeId, row: Row, to: Status, e: Event)
    requires GoodTables(rows, events, trails) && id in rows && trails[id] != []
    requires row.status == StatusName(to) && Records(e.kind, to)
    ensures var t := TrailAt(trails, id);
            GoodTables(rows[id := row], events[id := EventsAt(events, id) + [e]], trails[id := t + [to]])
            <==> CanTransition(LastStatus(trails, id), to) && (row.result.Some? <==> to == Booked)
  {
    hide *;
    RowOfTables(rows, events, trails, id);
    RowStep(rows[id], TrailAt(trails, id), EventsAt(events, id), row, to, e);
    TablesWith(rows, events, trails, id, row, EventsAt(events, id) + [e], TrailAt(trails, id) + [to]);
  }

  lemma RowOfTables(rows: Rows, events: EventLog, trails: Trails, id: SnipeId)
    requires GoodTables(rows, events, trails) && id in rows
    ensures GoodRow(rows[id], TrailAt(trails, id), EventsAt(events, id))
    ensures TrailAt(trails, id) != [] && LastStatus(trails, id) == TrailAt(trails, id)[|TrailAt(trails, id)| - 1]
  {
  }

  lemma TablesWith(rows: Rows, events: EventLog, trails: Trails,
                   id: SnipeId, row: Row, es: seq<Event>, t: seq<Status>)
    requires GoodTables(rows, events, trails) && id in rows
    ensures GoodTables(rows[id := row], events[id := es], trails[id := t]) <==> GoodRow(row, t, es)
  {
    hide GoodRow;
    var rows', events', trails' := rows[id := row], events[id := es], trails[id := t];
    assert id in rows' && trails'.Keys == rows'.Keys && EventsAt(events', id) == es;
    assert forall o | o in rows' && o != id :: GoodRow(rows'[o], trails'[o], EventsAt(events', o));
  }

  ghost predicate Moved(before: Snapshot, after: Snapshot, to: Status, now: int) {
    after == before.(status := to, updatedAt := now)
  }

  lemma StatusNamesDifferAll(a: Status, b: Status)
    ensures StatusName(a) == StatusName(b) ==> a == b
  {
    if StatusName(a) == StatusName(b) { StatusNamesDiffer(a, b); }
  }

  // ---- the engine

  /** time.Time's zero value, in nanoseconds since the Unix epoch. */
  const ZERO_TIME := -62_135_596_800_000_000_000

  /** History is only ever added to, and only for the snipe at hand. */
  ghost predicate Grows(before: Trails, after: Trails, id: SnipeId) {
    after == before || (id in after && after == before[id := after[id]] && TrailAt(before, id) <= after[id])
  }

  /** Events are only ever added for this snipe, and those added are dated t or later. */
  ghost predicate EventsFrom(before: EventLog, after: EventLog, id: SnipeId, t: int) {
    var a, b := EventsAt(before, id), EventsAt(after, id);
    a <= b && forall k | |a| <= k < |b| :: b[k].at >= t
  }

  lemma EventsFromThen(a: EventLog, b: EventLog, c: EventLog, id: SnipeId, s: int, t: int)
    requires EventsFrom(a, b, id, s) && EventsFrom(b, c, id, t) && s <= t
    ensures EventsFrom(a, c, id, s)
  {
  }

  lemma NothingAdded(events: EventLog, id: SnipeId, t: int)
    ensures EventsFrom(events, events, id, t)
  {
  }

  lemma EventsFromEarlier(a: EventLog, b: EventLog, id: SnipeId, s: int, t: int)
    requires EventsFrom(a, b, id, t) && s <= t
    ensures EventsFrom(a, b, id, s)
  {
  }

  ghost predicate Appended(before: EventLog, after: EventLog, id: SnipeId, kind: EventType) {
    exists at :: EventsAt(after, id) == EventsAt(before, id) + [Event(kind, at)]
  }

  ghost predicate LastKind(events: EventLog, id: SnipeId, kind: EventType) {
    var es := EventsAt(events, id);
    es != [] && es[|es| - 1].kind == kind
  }

  /** The fields no status change touches, and the wake time set when scheduling. */
  ghost predicate SameSnipe(before: Snapshot, after: Snapshot) {
    after.id == before.id && after.intent == before.intent && after.scheduledAt == before.scheduledAt
  }

  ghost function LastStatus(trails: Trails, id: SnipeId): Status {
    var t := TrailAt(trails, id);
    if t == [] then Submitted else t[|t| - 1]
  }

  /** Where a completed release may leave a snipe. */
  predicate ReleasedTo(release: Release, s: Status) {
    match release
    case Explicit(_) => s == Awaiting
    case Discovered(_, _) => s == Awaiting || s == Failed
    case Continuous(_) => s == Awaiting || s == Expired
    case NoRelease => false
  }

  /** The wake time Run derives from the intent. */
  predicate Stamped(release: Release, scheduledAt: Option<int>) {
    match release
    case Explicit(at) => scheduledAt == Some(at)
    case Discovered(from, _) => scheduledAt == Some(from)
    case Continuous(_) => scheduledAt.Some?
    case NoRelease => false
  }

  /** A release strategy whose arguments the engine takes. */
  predicate Accepts(r: Release) {
    match r
    case Explicit(_) => true
    case Discovered(from, until) => from != ZERO_TIME && until != ZERO_TIME && until > from
    case Continuous(until) => until != ZERO_TIME
    case NoRelease => false
  }

  /** A release began at this reading: not before the wake time, and whatever was recorded and
      asked came after it. Without one nothing was asked. */
  ghost predicate Began(start: int, scheduledAt: Option<int>, polls0: seq<Poll>, polls1: seq<Poll>,
                        events0: EventLog, events1: EventLog, id: SnipeId, date: int, began: Option<int>) {
    match began
    case None => polls1 == polls0
    case Some(t) =>
      && start <= t && (scheduledAt.Some? ==> scheduledAt.value <= t)
      && EventsFrom(events0, events1, id, t) && PollsSince(polls0, polls1, date, t)
  }

  /** Apart from the event of its scheduling, nothing of the snipe is recorded and nothing is
      asked for it before its wake time. */
  ghost predicate Held(scheduledAt: Option<int>, polls0: seq<Poll>, polls1: seq<Poll>,
                       events0: EventLog, events1: EventLog, id: SnipeId) {
    var a, b := EventsAt(events0, id), EventsAt(events1, id);
    && a <= b && polls0 <= polls1
    && (forall k | |a| <= k < |b| ::
          b[k].kind == EventScheduled || (scheduledAt.Some? ==> scheduledAt.value <= b[k].at))
    && forall k | |polls0| <= k < |polls1| :: scheduledAt.Some? ==> scheduledAt.value <= polls1[k].read
  }

  predicate Overdue(scheduledAt: Option<int>, clock: int) { scheduledAt.Some? && scheduledAt.value <= clock }

  lemma NothingHeld(scheduledAt: Option<int>, polls: seq<Poll>, events: EventLog, id: SnipeId)
    ensures Held(scheduledAt, polls, polls, events, events, id)
  {
  }

  lemma BegunAfterWake(start: int, scheduledAt: Option<int>, polls0: seq<Poll>, polls1: seq<Poll>,
                       events0: EventLog, events1: EventLog, id: SnipeId, date: int, began: Option<int>)
    requires Began(start, scheduledAt, polls0, polls1, events0, events1, id, date, began)
    ensures began.Some? ==> start <= began.value && (scheduledAt.Some? ==> scheduledAt.value <= began.value)
  {
  }

  lemma HeldUntilBegun(start: int, scheduledAt: Option<int>, polls0: seq<Poll>, polls1: seq<Poll>,
                       events0: EventLog, middle: EventLog, events1: EventLog, id: SnipeId, date: int,
                       began: Option<int>)
    requires Began(start, scheduledAt, polls0, polls1, middle, events1, id, date, began)
    requires began.None? ==> events1 == middle
    requires middle == events0 || Appended(events0, middle, id, EventScheduled)
    ensures Held(scheduledAt, polls0, polls1, events0, events1, id)
  {
    assert EventsAt(events0, id) <= EventsAt(middle, id);
    if began.Some? {
      assert forall k | |polls0| <= k < |polls1| :: polls1[k] == polls1[|polls0|..][k - |polls0|];
    }
  }

  class SnipeEngine {
    const store: Store
    const env: Environment
    const pollFloor: int
    const hasProvider: bool

    constructor (store: Store, env: Environment, pollFloor: int, hasProvider: bool)
      ensures this.store == store && this.env == env && this.pollFloor == pollFloor && this.hasProvider == hasProvider
    {
      this.store, this.env, this.pollFloor, this.hasProvider := store, env, pollFloor, hasProvider;
    }

    /** A handle this engine may drive: in step with its row, over a sound store. */
    ghost predicate Drives(h: Handle)
      reads h, h.inner, store
    {
      h.store == store && h.InStep() && h.Fresh() && store.Valid()
    }

    method Submit(id: SnipeId, intent: Intent) returns (h: Option<Handle>)
      requires store.Valid()
      modifies store, env`clock, env`cancelled, env`faults
      ensures store.Valid() && Grows(old(store.trails), store.trails, id)
      ensures h.Some? ==> fresh(h.value) && fresh(h.value.inner) && Drives(h.value) && h.value.inner.id == id
      ensures h.Some? ==> store.trails[id] == [Submitted] && |EventsAt(store.events, id)| == 1
      ensures h.Some? ==> h.value.inner.intent == intent && LastKind(store.events, id, EventSubmitted)
      ensures id in store.rows && id !in old(store.rows) ==> store.rows[id].intent == intent
      ensures id in old(store.rows) ==> h.None? && unchanged(store)
      ensures h.None? ==> id in old(store.rows) || env.faults > old(env.faults)
      ensures env.faults >= old(env.faults)
    {
      var now := env.Now();
      var inner := new SnipeState(id, intent, now);
      var created := store.CreateSnipe(inner, env);
      if !created { return None; }
      CreatedRow(old(store.rows), store.events, old(store.trails), id, store.rows[id], None);
      var ok := store.AppendEvent(id, Event(EventSubmitted, now), env);
      if !ok { return None; }
      CreatedRow(old(store.rows), old(store.events), old(store.trails), id, store.rows[id],
                 Some(Event(EventSubmitted, now)));
      var handle := new Handle(inner, store);
      h := Some(handle);
    }

    method Load(id: SnipeId) returns (h: Option<Handle>)
      requires store.Valid()
      modifies env`faults
      ensures env.faults >= old(env.faults) && (h.None? ==> id !in store.rows || env.faults > old(env.faults))
      ensures h.Some? ==> fresh(h.value) && fresh(h.value.inner) && Drives(h.value) && h.value.inner.id == id
      ensures h.Some? ==> id in store.trails && h.value.inner.status == LastStatus(store.trails, id)
    {
      hide GoodTables, ParseStatus, StatusName;
      if id in store.rows {
        RowFacts(store.rows, store.events, store.trails, id);
        ParseStatusRoundTrip(store.trails[id][|store.trails[id]| - 1]);
      }
      var inner := store.GetSnipe(id, env);
      if inner.None? { return None; }
      var handle := new Handle(inner.value, store);
      h := Some(handle);
    }

    /** Load a snipe and drive it from Submitted or Scheduled through its release. */
    method Run(id: SnipeId) returns (r: Outcome, ghost h: Option<Handle>, ghost began: Option<int>)
      requires store.Valid()
      modifies store, env
      ensures env.faults >= old(env.faults) && (r == PersistFailed ==> env.faults > old(env.faults))
      ensures store.Valid() && Grows(old(store.trails), store.trails, id)
      ensures r != Illegal
      ensures h.None? ==>
              r == Invalid && unchanged(store) && (id !in old(store.rows) || env.faults > old(env.faults))
      ensures h.Some? ==> fresh(h.value) && fresh(h.value.inner) && Drives(h.value) && h.value.inner.id == id
      ensures h.Some? ==>
              Held(h.value.inner.scheduledAt, old(env.polls), env.polls, old(store.events), store.events, id)
      ensures h.Some? && began.Some? && h.value.inner.scheduledAt.Some? ==>
              h.value.inner.scheduledAt.value <= began.value
      ensures h.Some? && r == Done && !env.cancelled && LastStatus(old(store.trails), id) in {Submitted, Scheduled}
          ==> began.Some? && ReleasedTo(h.value.inner.intent.release, h.value.inner.status)
      ensures h.Some? && began.None? && LastStatus(old(store.trails), id) in {Submitted, Scheduled}
          ==> r == Invalid || r == PersistFailed || env.cancelled
      ensures h.Some? && LastStatus(old(store.trails), id) == Scheduled
           && Overdue(old(store.rows)[id].scheduledAt, old(env.clock))
          ==> began.Some? && (h.value.inner.intent.release.Explicit? ==> r == Done || r == PersistFailed)
      ensures h.Some? && r == Invalid
          ==> !Accepts(h.value.inner.intent.release) || (!h.value.inner.intent.release.Explicit? && !hasProvider)
      ensures r == ContextDone ==> env.cancelled
      ensures h.Some? && LastStatus(old(store.trails), id) !in {Submitted, Scheduled} ==> r == Done && unchanged(store)
    {
      hide GoodTables, Held;
      began := None;
      var loaded := Load(id);
      if loaded.None? { return Invalid, None, None; }
      h := loaded;
      r, began := Drive(loaded.value);
    }

    /** began is the clock when the release began, if it did. */
    method Drive(h: Handle) returns (r: Outcome, ghost began: Option<int>)
      requires Drives(h)
      modifies h, store, env
      ensures env.faults >= old(env.faults) && (r == PersistFailed ==> env.faults > old(env.faults))
      ensures Drives(h) && Grows(old(store.trails), store.trails, h.inner.id)
      ensures (h.inner == old(h.inner) || fresh(h.inner)) && h.inner.id == old(h.inner.id)
      ensures h.inner.intent == old(h.inner.intent) && env.clock >= old(env.clock)
      ensures r != Illegal && (r == ContextDone ==> env.cancelled)
      ensures r == Invalid ==> !Accepts(h.inner.intent.release) || (!h.inner.intent.release.Explicit? && !hasProvider)
      ensures r == ProviderFailed ==> env.polls != [] && env.polls[|env.polls| - 1].Broke()
      ensures old(h.inner.status) != Submitted && old(h.inner.status) != Scheduled ==>
              r == Done && unchanged(store) && unchanged(env) && began.None?
      ensures old(h.inner.status) == Submitted && h.inner.status != Submitted ==>
              && Stamped(h.inner.intent.release, h.inner.scheduledAt)
              && (h.inner.intent.release.Continuous? ==> old(env.clock) <= h.inner.scheduledAt.value <= env.clock)
              && TrailAt(old(store.trails), h.inner.id) + [Scheduled] <= TrailAt(store.trails, h.inner.id)
      ensures old(h.inner.status) != Submitted ==> h.inner.scheduledAt == old(h.inner.scheduledAt)
      ensures Held(h.inner.scheduledAt, old(env.polls), env.polls, old(store.events), store.events, h.inner.id)
      ensures began.Some? ==>
              old(env.clock) <= began.value && (h.inner.scheduledAt.Some? ==> h.inner.scheduledAt.value <= began.value)
      ensures began.None? && (old(h.inner.status) == Submitted || old(h.inner.status) == Scheduled) ==>
              r == Invalid || r == PersistFailed || env.cancelled
      ensures old(h.inner.status) == Scheduled && Overdue(old(h.inner.scheduledAt), old(env.clock)) ==>
              began.Some? && (h.inner.intent.release.Explicit? ==> r == Done || r == PersistFailed)
      ensures r == Done && !env.cancelled && (old(h.inner.status) == Submitted || old(h.inner.status) == Scheduled)
          ==> ReleasedTo(h.inner.intent.release, h.inner.status)
    {
      hide GoodTables, Began, Held, PollsSince;
      began := None;
      ghost var trails, id, logged := store.trails, h.inner.id, store.events;
      NothingHeld(h.inner.scheduledAt, env.polls, logged, id);
      r := Done;
      if h.inner.status == Submitted {
        r := Stamp(h);
      }
      if r != Done || h.inner.status != Scheduled { return; }
      ghost var middle, noted, t, run := store.trails, store.events, env.clock, None;
      r, began, run := Release(h);
      GrowsTransitive(trails, middle, store.trails, id);
      HeldUntilBegun(t, h.inner.scheduledAt, old(env.polls), env.polls, logged, noted, store.events, id,
                     h.inner.intent.date, began);
      BegunAfterWake(t, h.inner.scheduledAt, old(env.polls), env.polls, noted, store.events, id,
                     h.inner.intent.date, began);
    }

    /** Derive the wake time of a submitted snipe and schedule it. */
    method Stamp(h: Handle) returns (r: Outcome)
      requires Drives(h) && h.inner.status == Submitted
      modifies h, store, env`clock, env`cancelled, env`faults
      ensures env.faults >= old(env.faults) && (r == PersistFailed ==> env.faults > old(env.faults))
      ensures env.clock >= old(env.clock) && env.polls == old(env.polls) && (old(env.cancelled) ==> env.cancelled)
      ensures Drives(h) && Grows(old(store.trails), store.trails, h.inner.id) && h.inner.id == old(h.inner.id)
      ensures h.inner.intent == old(h.inner.intent) && (h.inner == old(h.inner) || fresh(h.inner))
      ensures r == Done || r == PersistFailed || (r == Invalid && h.inner.intent.release.NoRelease?)
      ensures r != Done ==> h.inner == old(h.inner) && h.inner.View() == old(h.inner.View()) && unchanged(store)
      ensures r == Done ==>
              && h.inner.status == Scheduled && Stamped(h.inner.intent.release, h.inner.scheduledAt)
              && (h.inner.intent.release.Continuous? ==> old(env.clock) <= h.inner.scheduledAt.value <= env.clock)
              && TrailAt(store.trails, h.inner.id) == TrailAt(old(store.trails), h.inner.id) + [Scheduled]
              && Appended(old(store.events), store.events, h.inner.id, EventScheduled)
    {
      hide GoodTables, Appended;
      var at: Option<int>;
      match h.inner.intent.release {
        case Explicit(t) => at := Some(t);
        case Discovered(from, _) => at := Some(from);
        case Continuous(_) => var t := env.Now(); at := Some(t);
        case NoRelease => at := None;
      }
      if at.None? { return Invalid; }
      r := TransitionToScheduled(h, at.value);
    }

    /** Release a scheduled snipe at its wake time, or at once when that has passed. began is the
        clock when the release began, none when the context's end kept it from beginning, and
        run the run of the timer, none when there was no wait. */
    method Release(h: Handle)
      returns (r: Outcome, ghost began: Option<int>, ghost run: Option<seq<TimerRace.Label>>)
      requires Drives(h) && h.inner.status == Scheduled
      modifies h, store, env
      ensures env.faults >= old(env.faults) && (r == PersistFailed ==> env.faults > old(env.faults))
      ensures Drives(h) && Grows(old(store.trails), store.trails, h.inner.id)
      ensures SameSnipe(old(h.inner.View()), h.inner.View())
      ensures h.inner == old(h.inner) || fresh(h.inner)
      ensures r != Illegal && env.clock >= old(env.clock)
      ensures Began(old(env.clock), h.inner.scheduledAt, old(env.polls), env.polls, old(store.events), store.events,
                    h.inner.id, h.inner.intent.date, began)
      ensures began.None? ==> unchanged(store) && env.cancelled && run.Some?
      ensures run.Some? ==>
              old(env.clock) < (if h.inner.scheduledAt.Some? then h.inner.scheduledAt.value else ZERO_TIME)
      ensures run.Some? ==> TimerRace.Ran(run.value, if began.Some? then 1 else 0)
      ensures h.inner.intent.release.Explicit? && run.None? ==> r == Done || r == PersistFailed
      ensures r == ContextDone ==> env.cancelled
      ensures r == Invalid ==> !Accepts(h.inner.intent.release) || (!h.inner.intent.release.Explicit? && !hasProvider)
      ensures r == ProviderFailed ==> env.polls != [] && env.polls[|env.polls| - 1].Broke()
      ensures r == Done && !env.cancelled ==> ReleasedTo(h.inner.intent.release, h.inner.status)
    {
      hide GoodTables, PollsSince, EventsFrom, TimerRace.IsRun, TimerRace.Ran;
      var now := env.Now();
      var scheduledAt := if h.inner.scheduledAt.Some? then h.inner.scheduledAt.value else ZERO_TIME;
      if scheduledAt - now <= 0 {
        began, run := Some(now), None;
        r := FireRelease(h);
      } else {
        ghost var schedule, releases, end, at;
        r, schedule, releases, end, at := WaitAndFire(h, scheduledAt - now);
        TimerRace.RunHasOutcome(schedule, releases, end);
        began, run := if releases == 1 then Some(at) else None, Some(schedule);
      }
    }

    /** Submitted to Scheduled, stamping the wake time in the same transaction. */
    method TransitionToScheduled(h: Handle, scheduledAt: int) returns (r: Outcome)
      requires Drives(h)
      modifies h, store, env`clock, env`cancelled, env`faults
      ensures env.faults >= old(env.faults) && (r == PersistFailed ==> env.faults > old(env.faults))
      ensures env.clock >= old(env.clock) && env.polls == old(env.polls)
      ensures Drives(h) && Grows(old(store.trails), store.trails, h.inner.id) && h.inner.id == old(h.inner.id)
      ensures (r == Done || r == Illegal || r == PersistFailed)
      ensures r == Illegal <==> !CanTransition(old(h.inner.status), Scheduled)
      ensures r == Done ==> fresh(h.inner) && h.inner.status == Scheduled && h.inner.scheduledAt == Some(scheduledAt)
      ensures h.inner.intent == old(h.inner.intent)
      ensures r == Done ==> TrailAt(store.trails, h.inner.id) == TrailAt(old(store.trails), h.inner.id) + [Scheduled]
      ensures r == Done ==> Appended(old(store.events), store.events, h.inner.id, EventScheduled)
      ensures old(env.cancelled) ==> env.cancelled
      ensures r != Done ==> h.inner == old(h.inner) && h.inner.View() == old(h.inner.View()) && unchanged(store)
    {
      hide GoodTables;
      if !CanTransition(h.inner.status, Scheduled) { return Illegal; }
      var now := env.Now();
      var candidate := h.inner.Clone();
      var ok := candidate.Transition(Scheduled);
      candidate.scheduledAt, candidate.updatedAt := Some(scheduledAt), now;
      NotBooked(h);
      r := h.Persist(candidate, Event(EventScheduled, now), env);
    }

    /** A driven handle holds the last recorded status, and a result exactly when that is Booked. */
    lemma NotBooked(h: Handle)
      requires Drives(h)
      ensures h.inner.result.Some? <==> h.inner.status == Booked
      ensures LastStatus(store.trails, h.inner.id) == h.inner.status
    {
      hide GoodTables, StatusName;
      RowFacts(store.rows, store.events, store.trails, h.inner.id);
      var t := store.trails[h.inner.id];
      StatusNamesDifferAll(h.inner.status, t[|t| - 1]);
    }

    /** Move a driven handle; the caller names a legal target other than Booked. */
    method Move(h: Handle, to: Status, kind: EventType) returns (r: Outcome)
      requires Drives(h) && CanTransition(h.inner.status, to) && to != Booked && Records(kind, to)
      modifies h, store, env`clock, env`cancelled, env`faults
      ensures env.faults >= old(env.faults) && (r == PersistFailed ==> env.faults > old(env.faults))
      ensures Drives(h) && Grows(old(store.trails), store.trails, h.inner.id)
      ensures SameSnipe(old(h.inner.View()), h.inner.View())
      ensures h.inner == old(h.inner) || fresh(h.inner)
      ensures (r == Done || r == PersistFailed)
      ensures r == Done ==> fresh(h.inner) && h.inner.status == to
      ensures r == Done ==> TrailAt(store.trails, h.inner.id) == TrailAt(old(store.trails), h.inner.id) + [to]
      ensures r == Done ==> LastKind(store.events, h.inner.id, kind)
      ensures EventsFrom(old(store.events), store.events, h.inner.id, old(env.clock))
      ensures r != Done ==> h.inner == old(h.inner) && h.inner.View() == old(h.inner.View()) && unchanged(store)
      ensures env.clock >= old(env.clock) && (old(env.cancelled) ==> env.cancelled) && env.polls == old(env.polls)
    {
      hide GoodTables;
      NotBooked(h);
      r := h.Transition(to, kind, env);
    }

    /** The wait as a run of the timer machine: without a release in it nothing is stored and
        the handle stays as it was, a context cancelled beforehand allows none, and the caller
        reports the cancellation exactly when the machine's caller does or the release did. */
    method WaitAndFire(h: Handle, delay: int)
      returns (r: Outcome, ghost run: seq<TimerRace.Label>, ghost releases: nat, ghost end: TimerRace.Outcome,
               ghost began: int)
      requires Drives(h) && h.inner.status == Scheduled
      modifies h, store, env
      ensures env.faults >= old(env.faults) && (r == PersistFailed ==> env.faults > old(env.faults))
      ensures Drives(h) && Grows(old(store.trails), store.trails, h.inner.id)
      ensures SameSnipe(old(h.inner.View()), h.inner.View())
      ensures h.inner == old(h.inner) || fresh(h.inner)
      ensures r != Illegal
      ensures TimerRace.IsRun(run, releases, end) && releases <= 1
      ensures TimerRace.Cancel in run ==> env.cancelled
      ensures old(env.cancelled) ==> releases == 0
      ensures releases == 1 ==> began >= old(env.clock) + delay && began >= old(env.clock)
      ensures releases == 1 ==> EventsFrom(old(store.events), store.events, h.inner.id, began)
      ensures releases == 1 ==> PollsSince(old(env.polls), env.polls, h.inner.intent.date, began)
      ensures env.clock >= old(env.clock) && (r == ContextDone ==> env.cancelled)
      ensures r == Invalid ==> !Accepts(h.inner.intent.release) || (!h.inner.intent.release.Explicit? && !hasProvider)
      ensures r == ProviderFailed ==> env.polls != [] && env.polls[|env.polls| - 1].Broke()
      ensures releases == 0 ==>
              && env.polls == old(env.polls) && unchanged(store)
              && h.inner == old(h.inner) && h.inner.View() == old(h.inner.View())
              && env.cancelled && r == if end == TimerRace.FireResult then Done else ContextDone
      ensures end == TimerRace.ContextError ==> r == ContextDone
      ensures r == Done && releases == 1 ==> ReleasedTo(h.inner.intent.release, h.inner.status)
    {
      hide GoodTables, TimerRace.IsRun;
      hide PollsSince;
      ghost var early := env.cancelled;
      began := env.clock;
      var fired := env.Wait(delay);
      if !fired {
        run := TimerRace.StoppedRun();
        return ContextDone, run, 0, TimerRace.ContextError, began;
      }
      env.Drift();
      began := env.clock;
      var viaDone: bool := *;
      if env.cancelled {
        run := TimerRace.SkippedRun(early, viaDone);
        end := if viaDone then TimerRace.FireResult else TimerRace.ContextError;
        return if viaDone then Done else ContextDone, run, 0, end, began;
      }
      r := FireRelease(h);
      viaDone := viaDone || !env.cancelled;
      run := TimerRace.ReleasedRun(env.cancelled, viaDone);
      releases, end := 1, if viaDone then TimerRace.FireResult else TimerRace.ContextError;
      if !viaDone { r := ContextDone; }
    }

    /** The release itself. It is refused exactly for arguments the engine does not take, or
        where there is a provider to be polled and none is there. */
    method FireRelease(h: Handle) returns (r: Outcome)
      requires Drives(h) && h.inner.status == Scheduled
      modifies h, store, env
      ensures env.faults >= old(env.faults) && (r == PersistFailed ==> env.faults > old(env.faults))
      ensures Drives(h) && Grows(old(store.trails), store.trails, h.inner.id)
      ensures SameSnipe(old(h.inner.View()), h.inner.View())
      ensures h.inner == old(h.inner) || fresh(h.inner)
      ensures env.clock >= old(env.clock) && EventsFrom(old(store.events), store.events, h.inner.id, old(env.clock))
      ensures PollsSince(old(env.polls), env.polls, h.inner.intent.date, old(env.clock))
      ensures r != Illegal && (r == ContextDone ==> env.cancelled)
      ensures r == Invalid <==> !Accepts(h.inner.intent.release) || (!h.inner.intent.release.Explicit? && !hasProvider)
      ensures h.inner.intent.release.Explicit? ==> r == Done || r == PersistFailed
      ensures r == ProviderFailed ==> env.polls != [] && env.polls[|env.polls| - 1].Broke()
      ensures r == Done ==> ReleasedTo(h.inner.intent.release, h.inner.status)
      ensures r == Done && h.inner.status == Awaiting ==>
              LastKind(store.events, h.inner.id,
                       if h.inner.intent.release.Continuous? then EventFound else EventReleased)
    {
      hide GoodTables, AskedFor, PollsSince;
      NothingAsked(env.polls, h.inner.intent.date, env.clock);
      match h.inner.intent.release {
        case Explicit(_) => r := Move(h, Awaiting, EventReleased);
        case Discovered(from, until) =>
          if !hasProvider { return Invalid; }
          ghost var ps;
          r, ps := RunDiscoveredRelease(h, from, until);
          AddedSince(old(env.polls), ps, h.inner.intent.date, old(env.clock));
        case Continuous(until) =>
          if !hasProvider { return Invalid; }
          ghost var ps;
          r, ps := RunContinuousRelease(h, until);
          AddedSince(old(env.polls), ps, h.inner.intent.date, old(env.clock));
        case NoRelease => r := Invalid;
      }
    }

    method RunDiscoveredRelease(h: Handle, from: int, until: int) returns (r: Outcome, ghost ps: seq<Poll>)
      requires Drives(h) && (h.inner.status == Scheduled || h.inner.status == Discovering)
      modifies h, store, env
      ensures env.faults >= old(env.faults) && (r == PersistFailed ==> env.faults > old(env.faults))
      ensures Drives(h) && Grows(old(store.trails), store.trails, h.inner.id)
      ensures SameSnipe(old(h.inner.View()), h.inner.View())
      ensures h.inner == old(h.inner) || fresh(h.inner)
      ensures r != Illegal && (r == Invalid <==> !Accepts(Discovered(from, until)))
      ensures env.polls == old(env.polls) + ps && GoodPolls(ps, from, until, PollInterval(pollFloor))
      ensures env.clock >= old(env.clock) && EventsFrom(old(store.events), store.events, h.inner.id, old(env.clock))
      ensures AskedFor(ps, h.inner.intent.date, old(env.clock))
      ensures Spaced(ps, pollFloor) && Spaced(ps, 100_000_000)
      ensures r == ContextDone ==> env.cancelled
      ensures r == ProviderFailed ==> ps != [] && ps[|ps| - 1].Broke()
      ensures h.inner.status == old(h.inner.status) || h.inner.status in {Discovering, Awaiting, Failed}
      ensures h.inner.status == Awaiting ==> ps != [] && ps[|ps| - 1].Shows()
      ensures r == Done && h.inner.status == Awaiting ==> LastKind(store.events, h.inner.id, EventReleased)
      ensures r == Done ==> h.inner.status == Awaiting || h.inner.status == Failed
      ensures h.inner.status == Failed ==> env.clock >= until && forall i | 0 <= i < |ps| :: !ps[i].Shows()
    {
      hide GoodTables;
      ps := [];
      assert GoodPolls(ps, from, until, PollInterval(pollFloor));
      NothingAsked(env.polls, h.inner.intent.date, env.clock);
      hide GoodPolls, AskedFor;
      if from == ZERO_TIME || until == ZERO_TIME || until <= from { return Invalid, ps; }
      ghost var trails, id := store.trails, h.inner.id;
      r := EnterProbing(h, from);
      if r != Done { return r, ps; }
      ghost var middle, noted, t := store.trails, store.events, env.clock;
      r, ps := Probe(h, from, until);
      GrowsTransitive(trails, middle, store.trails, id);
      EventsFromThen(old(store.events), noted, store.events, id, old(env.clock), t);
      AskedForEarlier(ps, h.inner.intent.date, old(env.clock), t);
    }

    /** Poll the calendar inside the window and act on how that ended. */
    method Probe(h: Handle, ghost from: int, until: int) returns (r: Outcome, ghost ps: seq<Poll>)
      requires Drives(h) && h.inner.status == Discovering && env.clock >= from
      modifies h, store, env
      ensures env.faults >= old(env.faults) && (r == PersistFailed ==> env.faults > old(env.faults))
      ensures Drives(h) && Grows(old(store.trails), store.trails, h.inner.id)
      ensures SameSnipe(old(h.inner.View()), h.inner.View())
      ensures h.inner == old(h.inner) || fresh(h.inner)
      ensures r != Illegal && r != Invalid
      ensures env.polls == old(env.polls) + ps && GoodPolls(ps, from, until, PollInterval(pollFloor))
      ensures env.clock >= old(env.clock) && EventsFrom(old(store.events), store.events, h.inner.id, old(env.clock))
      ensures AskedFor(ps, h.inner.intent.date, old(env.clock))
      ensures Spaced(ps, pollFloor) && Spaced(ps, 100_000_000)
      ensures r == ContextDone ==> env.cancelled
      ensures r == ProviderFailed ==> ps != [] && ps[|ps| - 1].Broke()
      ensures (h.inner.status == Discovering || h.inner.status == Awaiting || h.inner.status == Failed)
      ensures h.inner.status == Awaiting ==> ps != [] && ps[|ps| - 1].Shows()
      ensures r == Done && h.inner.status == Awaiting ==> LastKind(store.events, h.inner.id, EventReleased)
      ensures r == Done ==> h.inner.status == Awaiting || h.inner.status == Failed
      ensures h.inner.status == Failed ==> env.clock >= until && forall i | 0 <= i < |ps| :: !ps[i].Shows()
    {
      hide GoodTables, GoodPolls, AskedFor, Spaced;
      var v;
      v, ps := PollCalendar(h.inner.intent.date, from, until);
      if v.Hit? { var observed := env.Now(); }
      r := Conclude(h, v, Failed, EventFailed, EventReleased);
    }

    /** Enter Discovering unless already there, and wait for the window to open. */
    method EnterProbing(h: Handle, from: int) returns (r: Outcome)
      requires Drives(h) && (h.inner.status == Scheduled || h.inner.status == Discovering)
      modifies h, store, env`clock, env`cancelled, env`faults
      ensures env.faults >= old(env.faults) && (r == PersistFailed ==> env.faults > old(env.faults))
      ensures Drives(h) && Grows(old(store.trails), store.trails, h.inner.id)
      ensures SameSnipe(old(h.inner.View()), h.inner.View())
      ensures h.inner == old(h.inner) || fresh(h.inner)
      ensures env.polls == old(env.polls)
      ensures env.clock >= old(env.clock) && EventsFrom(old(store.events), store.events, h.inner.id, old(env.clock))
      ensures r == Done || r == PersistFailed || (r == ContextDone && env.cancelled)
      ensures r == Done ==> h.inner.status == Discovering && env.clock >= from
      ensures h.inner.status == old(h.inner.status) || h.inner.status == Discovering
      ensures h.inner.status == old(h.inner.status) ==> unchanged(store)
      ensures h.inner.status != old(h.inner.status) ==>
              TrailAt(store.trails, h.inner.id) == TrailAt(old(store.trails), h.inner.id) + [Discovering]
    {
      hide GoodTables;
      if h.inner.status != Discovering {
        r := Move(h, Discovering, EventDiscovered);
        if r != Done { return r; }
      }
      r := Done;
      var now := env.Now();
      if from - now > 0 {
        var waited := env.Wait(from - now);
        if !waited { r := ContextDone; }
      }
    }

    /** Act on how a polling loop ended. */
    method Conclude(h: Handle, v: Verdict, closed: Status, closedKind: EventType, hitKind: EventType)
      returns (r: Outcome)
      requires Drives(h) && (closed == Failed || closed == Expired)
      requires Records(closedKind, closed) && Records(hitKind, Awaiting)
      requires CanTransition(h.inner.status, closed) && CanTransition(h.inner.status, Awaiting)
      requires v.Stopped? ==> (v.outcome == ContextDone || v.outcome == ProviderFailed)
      modifies h, store, env`clock, env`cancelled, env`faults
      ensures env.faults >= old(env.faults) && (r == PersistFailed ==> env.faults > old(env.faults))
      ensures Drives(h) && Grows(old(store.trails), store.trails, h.inner.id)
      ensures SameSnipe(old(h.inner.View()), h.inner.View())
      ensures h.inner == old(h.inner) || fresh(h.inner)
      ensures env.clock >= old(env.clock) && env.polls == old(env.polls)
      ensures old(env.cancelled) ==> env.cancelled
      ensures EventsFrom(old(store.events), store.events, h.inner.id, old(env.clock))
      ensures if v.Stopped? then r == v.outcome else r == Done || r == PersistFailed
      ensures r == Done ==> LastKind(store.events, h.inner.id, if v.Hit? then hitKind else closedKind)
      ensures h.inner.status ==
              if r != Done || v.Stopped? then old(h.inner.status) else if v.Hit? then Awaiting else closed
    {
      hide GoodTables;
      match v {
        case WindowClosed => r := Move(h, closed, closedKind);
        case Hit => r := Move(h, Awaiting, hitKind);
        case Stopped(o) => r := o;
      }
    }

    /** Awaiting, Finding, Booking, then Booked or Failed. */
    method RunBookingRace(h: Handle, mayBlock: bool)
      returns (r: RaceOutcome, ghost end: Option<BookingRace.Race>, ghost sched: seq<BookingRace.Label>,
               ghost answer: Option<FindAnswer>)
      requires Drives(h) && h.inner.status == Awaiting
      modifies h, store, env
      ensures env.faults >= old(env.faults) && (r == Unfinished(PersistFailed) ==> env.faults > old(env.faults))
      ensures store.Valid() && h.InStep()
      ensures SameSnipe(old(h.inner.View()), h.inner.View())
      ensures h.inner == old(h.inner) || fresh(h.inner)
      ensures Grows(old(store.trails), store.trails, h.inner.id)
      ensures r != Unfinished(Illegal)
      ensures r == BookedOk ==> h.Fresh() && h.inner.status == Booked
      ensures r.BookFailed? ==> h.Fresh() && h.inner.status == Failed
      ensures r.Unfinished? ==> !IsTerminal(h.inner.status)
      ensures end.Some? ==>
              && answer.Some? && answer.value.Slots? && |answer.value.slots| > 0
              && RaceOf(|answer.value.slots|, mayBlock, sched, end) && end.value.Over()
      ensures end.None? ==>
              || r == Unfinished(PersistFailed)
              || r == BookFailed(if answer == Some(Slots([])) then "inventory_empty" else "find_failed")
      ensures end.None? && r.BookFailed? ==> answer.Some? && (answer.value.Slots? ==> answer.value.slots == [])
      ensures r == BookFailed("all_attempts_failed") && !env.cancelled ==>
              end.Some? && TriedAll(|answer.value.slots|, mayBlock, sched, end)
      ensures end.Some? && (end.value.loop.Returned? || !mayBlock) ==> BookingRace.NothingLost(end.value)
      ensures RowTellsRace(h.inner.View(), end)
      ensures r.BookFailed? && end.Some? ==> r.reason == RaceReason(end.value)
      ensures end.Some? && end.value.loop.Returned? && end.value.AnySuccess() ==>
              r == BookedOk || r == Unfinished(PersistFailed)
    {
      hide GoodTables, BookingRace.NothingLost, RaceOf, TriedAll, Ranked;
      end, sched := None, [];
      ghost var trails, id := store.trails, h.inner.id;
      var ranked;
      r, ranked, answer := FindAndRank(h);
      if ranked.None? { return; }
      ghost var middle := store.trails;
      RankedLength(answer.value.slots, h.inner.intent.slotPrefs);
      r, end, sched := Settle(h, |ranked.value|, mayBlock);
      GrowsTransitive(trails, middle, store.trails, id);
      WinnerTellsSuccess(end.value);
      if r == BookFailed("all_attempts_failed") && !env.cancelled {
        FailsOnlyAfterAll(|ranked.value|, mayBlock, sched, end);
      }
    }

    /** Enter Finding, ask for slots, rank them, and enter Booking when there are any. */
    method FindAndRank(h: Handle)
      returns (r: RaceOutcome, ranked: Option<seq<Slot>>, ghost answer: Option<FindAnswer>)
      requires Drives(h) && h.inner.status == Awaiting
      modifies h, store, env
      ensures env.faults >= old(env.faults) && (r == Unfinished(PersistFailed) ==> env.faults > old(env.faults))
      ensures Drives(h) && SameSnipe(old(h.inner.View()), h.inner.View()) && (h.inner == old(h.inner) || fresh(h.inner))
      ensures Grows(old(store.trails), store.trails, h.inner.id)
      ensures ranked.Some? ==>
              && answer.Some? && answer.value.Slots? && answer.value.slots != []
              && ranked.value == Ranked(answer.value.slots, h.inner.intent.slotPrefs)
      ensures r != Unfinished(Illegal) && r != BookedOk
      ensures r.BookFailed? ==>
              && h.inner.status == Failed && ranked.None? && answer.Some?
              && r.reason == (if answer.value == Slots([]) then "inventory_empty" else "find_failed")
      ensures answer.Some? && answer.value.Slots? && answer.value.slots != [] ==> h.inner.status != Failed
      ensures ranked.Some? ==> h.inner.status == Booking && fresh(h.inner) && ranked.value != []
      ensures ranked.None? && r.Unfinished? ==>
              r == Unfinished(PersistFailed) && (h.inner.status == Awaiting || h.inner.status == Finding)
      ensures ranked.Some? ==> r == Unfinished(Done)
    {
      hide GoodTables, Ranked, RowOf, StatusName, EventsFrom, LastKind;
      ranked, answer := None, None;
      ghost var trails, id := store.trails, h.inner.id;
      var o := Move(h, Finding, EventFound);
      if o != Done { return Unfinished(o), ranked, answer; }
      ghost var middle := store.trails;
      var found := env.Find(h.inner.intent.date, env.clock);
      answer := Some(found);
      if !found.Slots? || found.slots == [] {
        r := FailWithReason(h, if found.Slots? then "inventory_empty" else "find_failed");
      } else {
        r, ranked := EnterBooking(h, found.slots);
      }
      GrowsTransitive(trails, middle, store.trails, id);
    }

    /** Rank what Find returned and enter Booking. */
    method EnterBooking(h: Handle, found: seq<Slot>) returns (r: RaceOutcome, ranked: Option<seq<Slot>>)
      requires Drives(h) && h.inner.status == Finding && found != []
      modifies h, store, env`clock, env`cancelled, env`faults
      ensures env.faults >= old(env.faults) && (r == Unfinished(PersistFailed) ==> env.faults > old(env.faults))
      ensures Drives(h) && SameSnipe(old(h.inner.View()), h.inner.View()) && (h.inner == old(h.inner) || fresh(h.inner))
      ensures Grows(old(store.trails), store.trails, h.inner.id)
      ensures r == Unfinished(Done) || r == Unfinished(PersistFailed)
      ensures ranked == if h.inner.status == Booking then Some(Ranked(found, h.inner.intent.slotPrefs)) else None
      ensures ranked.Some? ==> fresh(h.inner) && ranked.value != [] && r == Unfinished(Done)
      ensures ranked.None? ==> r == Unfinished(PersistFailed) && h.inner.status == Finding
    {
      hide GoodTables, Ranked;
      var listed := new Slot[|found|](i requires 0 <= i < |found| => found[i]);
      assert listed[..] == found;
      var order := RankSlotsByPreference(listed, h.inner.intent.slotPrefs);
      ranked := Some(order[..]);
      var o := Move(h, Booking, EventBookAttempted);
      r := Unfinished(o);
      if o != Done { ranked := None; }
    }

    /** Persist a failure with its reason. */
    method FailWithReason(h: Handle, reason: string) returns (r: RaceOutcome)
      requires Drives(h) && (h.inner.status == Finding || h.inner.status == Booking)
      modifies h, store, env`clock, env`cancelled, env`faults
      ensures env.faults >= old(env.faults) && (r == Unfinished(PersistFailed) ==> env.faults > old(env.faults))
      ensures Drives(h) && Grows(old(store.trails), store.trails, h.inner.id)
      ensures SameSnipe(old(h.inner.View()), h.inner.View()) && (h.inner == old(h.inner) || fresh(h.inner))
      ensures r == BookFailed(reason) || r == Unfinished(PersistFailed)
      ensures r.BookFailed? ==> h.inner.status == Failed
      ensures r.Unfinished? ==> unchanged(store) && h.inner.status == old(h.inner.status)
      ensures old(env.cancelled) ==> env.cancelled
    {
      hide GoodTables, EventsFrom, LastKind;
      var o := Move(h, Failed, EventFailed);
      r := if o == Done then BookFailed(reason) else Unfinished(o);
    }

    /** Run the race from Booking and persist what it delivered. */
    method Settle(h: Handle, n: nat, mayBlock: bool)
      returns (r: RaceOutcome, ghost end: Option<BookingRace.Race>, ghost sched: seq<BookingRace.Label>)
      requires Drives(h) && h.inner.status == Booking
      modifies h, h.inner, store, env`clock, env`cancelled, env`faults
      ensures env.faults >= old(env.faults) && (r == Unfinished(PersistFailed) ==> env.faults > old(env.faults))
      ensures store.Valid() && h.InStep()
      ensures SameSnipe(old(h.inner.View()), h.inner.View())
      ensures h.inner == old(h.inner) || fresh(h.inner)
      ensures Grows(old(store.trails), store.trails, h.inner.id)
      ensures end.Some? && RaceOf(n, mayBlock, sched, end) && end.value.Over()
      ensures Reports(r, end.value, h.inner.status)
      ensures r == BookedOk || r.BookFailed? ==> h.Fresh()
      ensures r.Unfinished? ==> unchanged(store)
      ensures BookingRace.ParentCancel in sched ==> env.cancelled
      ensures old(env.cancelled) ==> sched != [] && sched[0] == BookingRace.ParentCancel
      ensures end.value.loop.Returned? || !mayBlock ==> BookingRace.NothingLost(end.value)
      ensures RowTellsRace(h.inner.View(), end)
    {
      var race;
      race, sched := BookingRace.RunRace(n, mayBlock, env.cancelled);
      end := Some(race);
      assert RaceOf(n, mayBlock, sched, end);
      hide GoodTables, BookingRace.NothingLost, RaceOf, RowTellsRace, Reports;
      if race.parentDone { env.Cancel(); }
      r := Report(h, race);
      WinnerTellsSuccess(race);
      TellsRace(h.inner.View(), race);
    }

    /** Persist what a race delivered: Booked with its winner, or Failed with the reason. */
    method Report(h: Handle, race: BookingRace.Race) returns (r: RaceOutcome)
      requires Drives(h) && h.inner.status == Booking && race.Over()
      modifies h, h.inner, store, env`clock, env`cancelled, env`faults
      ensures env.faults >= old(env.faults) && (r == Unfinished(PersistFailed) ==> env.faults > old(env.faults))
      ensures store.Valid() && h.InStep()
      ensures SameSnipe(old(h.inner.View()), h.inner.View())
      ensures h.inner == old(h.inner) || fresh(h.inner)
      ensures Grows(old(store.trails), store.trails, h.inner.id)
      ensures Reports(r, race, h.inner.status)
      ensures r == BookedOk || r.BookFailed? ==> h.Fresh()
      ensures r == BookedOk ==>
              h.inner.result == Some(Reservation(race.loop.winner.value.bookedAt, race.loop.winner.value.id))
      ensures r.Unfinished? ==> unchanged(store)
      ensures old(env.cancelled) ==> env.cancelled
    {
      hide GoodTables, EventsFrom, LastKind;
      if race.loop.ReturnedBlocked? || race.loop.winner.None? {
        r := FailWithReason(h, if race.loop.ReturnedBlocked? then "prepare_blocked" else "all_attempts_failed");
      } else {
        var winner := race.loop.winner.value;
        NotBooked(h);
        h.inner.result := Some(Reservation(winner.bookedAt, winner.id));
        assert h.InStep();
        var o := h.Transition(Booked, EventBooked, env);
        r := if o == Done then BookedOk else Unfinished(o);
      }
    }

    /** The probe loop: read the clock, ask for the calendar, wait one interval. */
    method PollCalendar(date: int, ghost from: int, until: int) returns (v: Verdict, ghost ps: seq<Poll>)
      requires env.clock >= from
      modifies env`clock, env`cancelled, env`polls
      ensures env.polls == old(env.polls) + ps && GoodPolls(ps, from, until, PollInterval(pollFloor))
      ensures env.clock >= old(env.clock) && AskedFor(ps, date, old(env.clock))
      ensures Spaced(ps, pollFloor) && Spaced(ps, 100_000_000)
      ensures v.Hit? <==> ps != [] && ps[|ps| - 1].Shows()
      ensures v == Stopped(ProviderFailed) <==> ps != [] && ps[|ps| - 1].Broke()
      ensures !v.Hit? ==> forall i | 0 <= i < |ps| :: !ps[i].Shows()
      ensures v.WindowClosed? ==> env.clock >= until
      ensures v.Stopped? ==> v.outcome == ProviderFailed || (v.outcome == ContextDone && env.cancelled)
    {
      ps := [];
      assert GoodPolls(ps, from, until, PollInterval(pollFloor));
      assert WaitedOut(ps, PollInterval(pollFloor), env.clock);
      NothingAsked(env.polls, date, env.clock);
      hide GoodPolls, WaitedOut, AskedFor, Spaced;
      while true
        invariant env.clock >= from && env.polls == old(env.polls) + ps
        invariant GoodPolls(ps, from, until, PollInterval(pollFloor))
        invariant WaitedOut(ps, PollInterval(pollFloor), env.clock)
        invariant env.clock >= old(env.clock) && AskedFor(ps, date, old(env.clock))
        decreases until - env.clock
      {
        ghost var top, was := env.clock, ps;
        GoodPollsSpaced(ps, from, until, pollFloor);
        NoHits(ps, PollInterval(pollFloor), top);
        if env.cancelled { return Stopped(ContextDone), ps; }
        var read := env.Now();
        if read >= until { return WindowClosed, ps; }
        var days := env.Calendar(date, read);
        ghost var p := env.polls[|env.polls| - 1];
        PollsExtend(ps, p, from, until, PollInterval(pollFloor), top);
        AskedForMore(ps, p, date, old(env.clock));
        ps := ps + [p];
        GoodPollsSpaced(ps, from, until, pollFloor);
        if days.None? { return Stopped(ProviderFailed), ps; }
        if ContainsAvailable(days.value, date) { return Hit, ps; }
        var waited := env.Wait(PollInterval(pollFloor));
        if !waited { return Stopped(ContextDone), ps; }
        WaitedOn(was, p, PollInterval(pollFloor), top, env.clock);
      }
    }

    method RunContinuousRelease(h: Handle, until: int) returns (r: Outcome, ghost ps: seq<Poll>)
      requires Drives(h) && h.inner.status == Scheduled
      modifies h, store, env
      ensures env.faults >= old(env.faults) && (r == PersistFailed ==> env.faults > old(env.faults))
      ensures Drives(h) && Grows(old(store.trails), store.trails, h.inner.id)
      ensures SameSnipe(old(h.inner.View()), h.inner.View())
      ensures h.inner == old(h.inner) || fresh(h.inner)
      ensures r != Illegal && (r == Invalid <==> !Accepts(Continuous(until)))
      ensures env.polls == old(env.polls) + ps && GoodPolls(ps, old(env.clock), until, PollInterval(pollFloor))
      ensures env.clock >= old(env.clock) && EventsFrom(old(store.events), store.events, h.inner.id, old(env.clock))
      ensures AskedFor(ps, h.inner.intent.date, old(env.clock))
      ensures Spaced(ps, pollFloor) && Spaced(ps, 100_000_000)
      ensures r == ContextDone ==> env.cancelled
      ensures r == ProviderFailed ==> ps != [] && ps[|ps| - 1].Broke()
      ensures r == Done && h.inner.status == Awaiting ==> LastKind(store.events, h.inner.id, EventFound)
      ensures (h.inner.status == Scheduled || h.inner.status == Awaiting || h.inner.status == Expired)
      ensures h.inner.status == Awaiting ==> ps != [] && ps[|ps| - 1].Shows()
      ensures r == Done ==> h.inner.status == Awaiting || h.inner.status == Expired
      ensures h.inner.status == Expired ==> env.clock >= until && forall i | 0 <= i < |ps| :: !ps[i].Shows()
    {
      hide GoodTables, AskedFor, Spaced, GoodPolls, EventsFrom, LastKind;
      if until == ZERO_TIME {
        r, ps := Invalid, [];
        NothingAsked(env.polls, h.inner.intent.date, env.clock);
        NoPolls(env.clock, until, pollFloor);
        NothingAdded(store.events, h.inner.id, env.clock);
      } else {
        r, ps := Seek(h, until);
      }
    }

    /** Poll the inventory until the deadline and act on how that ended. */
    method Seek(h: Handle, until: int) returns (r: Outcome, ghost ps: seq<Poll>)
      requires Drives(h) && h.inner.status == Scheduled
      modifies h, store, env
      ensures env.faults >= old(env.faults) && (r == PersistFailed ==> env.faults > old(env.faults))
      ensures Drives(h) && Grows(old(store.trails), store.trails, h.inner.id)
      ensures SameSnipe(old(h.inner.View()), h.inner.View())
      ensures h.inner == old(h.inner) || fresh(h.inner)
      ensures r != Illegal && r != Invalid
      ensures env.polls == old(env.polls) + ps && GoodPolls(ps, old(env.clock), until, PollInterval(pollFloor))
      ensures env.clock >= old(env.clock) && EventsFrom(old(store.events), store.events, h.inner.id, old(env.clock))
      ensures AskedFor(ps, h.inner.intent.date, old(env.clock))
      ensures Spaced(ps, pollFloor) && Spaced(ps, 100_000_000)
      ensures r == ContextDone ==> env.cancelled
      ensures r == ProviderFailed ==> ps != [] && ps[|ps| - 1].Broke()
      ensures r == Done && h.inner.status == Awaiting ==> LastKind(store.events, h.inner.id, EventFound)
      ensures (h.inner.status == Scheduled || h.inner.status == Awaiting || h.inner.status == Expired)
      ensures h.inner.status == Awaiting ==> ps != [] && ps[|ps| - 1].Shows()
      ensures r == Done ==> h.inner.status == Awaiting || h.inner.status == Expired
      ensures h.inner.status == Expired ==> env.clock >= until && forall i | 0 <= i < |ps| :: !ps[i].Shows()
    {
      hide GoodTables, AskedFor, Spaced, GoodPolls, EventsFrom, LastKind, PollInterval;
      ghost var logged, t := store.events, env.clock;
      var v;
      v, ps := PollInventory(h.inner.intent.date, until);
      ghost var later := env.clock;
      r := Conclude(h, v, Expired, EventExpired, EventFound);
      EventsFromEarlier(logged, store.events, h.inner.id, t, later);
    }

    /** The find loop: an empty inventory, reported either way, is waited out. */
    method PollInventory(date: int, until: int) returns (v: Verdict, ghost ps: seq<Poll>)
      modifies env`clock, env`cancelled, env`polls
      ensures env.polls == old(env.polls) + ps && GoodPolls(ps, old(env.clock), until, PollInterval(pollFloor))
      ensures env.clock >= old(env.clock) && AskedFor(ps, date, old(env.clock))
      ensures Spaced(ps, pollFloor) && Spaced(ps, 100_000_000)
      ensures v.Hit? <==> ps != [] && ps[|ps| - 1].Shows()
      ensures v == Stopped(ProviderFailed) <==> ps != [] && ps[|ps| - 1].Broke()
      ensures !v.Hit? ==> forall i | 0 <= i < |ps| :: !ps[i].Shows()
      ensures v.WindowClosed? ==> env.clock >= until
      ensures v.Stopped? ==> v.outcome == ProviderFailed || (v.outcome == ContextDone && env.cancelled)
    {
      ps := [];
      assert GoodPolls(ps, env.clock, until, PollInterval(pollFloor));
      assert WaitedOut(ps, PollInterval(pollFloor), env.clock);
      NothingAsked(env.polls, date, env.clock);
      hide GoodPolls, WaitedOut, AskedFor, Spaced;
      while true
        invariant env.clock >= old(env.clock) && env.polls == old(env.polls) + ps
        invariant GoodPolls(ps, old(env.clock), until, PollInterval(pollFloor))
        invariant WaitedOut(ps, PollInterval(pollFloor), env.clock)
        invariant env.clock >= old(env.clock) && AskedFor(ps, date, old(env.clock))
        decreases until - env.clock
      {
        ghost var top, was := env.clock, ps;
        GoodPollsSpaced(ps, old(env.clock), until, pollFloor);
        NoHits(ps, PollInterval(pollFloor), top);
        if env.cancelled { return Stopped(ContextDone), ps; }
        var read := env.Now();
        if read >= until { return WindowClosed, ps; }
        var answer := env.Find(date, read);
        ghost var p := env.polls[|env.polls| - 1];
        PollsExtend(ps, p, old(env.clock), until, PollInterval(pollFloor), top);
        AskedForMore(ps, p, date, old(env.clock));
        ps := ps + [p];
        GoodPollsSpaced(ps, old(env.clock), until, pollFloor);
        if answer.FindError? { return Stopped(ProviderFailed), ps; }
        if answer.Slots? && answer.slots != [] { return Hit, ps; }
        var waited := env.Wait(PollInterval(pollFloor));
        if !waited { return Stopped(ContextDone), ps; }
        WaitedOn(was, p, PollInterval(pollFloor), top, env.clock);
      }
    }
  }

  /** How RunBookingRace ended: BookFailed is a persisted failure with its reason. */
  datatype RaceOutcome = BookedOk | BookFailed(reason: string) | Unfinished(outcome: Outcome)

  /** What the caller is told of a race and where the snipe stands: Booked exactly with a winner,
      Failed with the reason of the race's end without one, or still Booking when that was not
      persisted. */
  ghost predicate Reports(r: RaceOutcome, end: BookingRace.Race, s: Status) {
    match r
    case BookedOk => s == Booked && end.loop.Returned? && end.loop.winner.Some?
    case BookFailed(reason) =>
      && s == Failed && reason == RaceReason(end) && (end.loop.Returned? ==> end.loop.winner.None?)
    case Unfinished(o) => s == Booking && o == PersistFailed
  }

  lemma TellsRace(s: Snapshot, end: BookingRace.Race)
    requires s.status == Booked ==>
      && end.loop.Returned? && end.loop.winner.Some?
      && s.result == Some(Reservation(end.loop.winner.value.bookedAt, end.loop.winner.value.id))
    requires s.status == Failed && end.loop.Returned? ==> !end.AnySuccess()
    ensures RowTellsRace(s, Some(end))
  {
  }

  lemma WinnerTellsSuccess(end: BookingRace.Race)
    ensures end.loop.Returned? && BookingRace.NothingLost(end) ==> (end.AnySuccess() <==> end.loop.winner.Some?)
  {
  }

  /** This run of the machine, from n slots, ended so. */
  ghost predicate RaceOf(n: nat, mayBlock: bool, sched: seq<BookingRace.Label>, end: Option<BookingRace.Race>) {
    && BookingRace.Follows(BookingRace.Start(n, mayBlock), sched)
    && end == Some(BookingRace.After(BookingRace.Start(n, mayBlock), sched)) && |end.value.attempts| == n
  }

  /** Every slot was prepared, in rank order, and confirmed in vain where that succeeded. */
  ghost predicate TriedAll(n: nat, mayBlock: bool, sched: seq<BookingRace.Label>, end: Option<BookingRace.Race>) {
    RaceOf(n, mayBlock, sched, end) &&
    var calls := BookingRace.Prepares(BookingRace.Start(n, mayBlock), sched);
    |calls| == n && forall k | 0 <= k < n ::
      calls[k].slot == k && (if calls[k].ok then end.value.attempts[k].Errored? else end.value.attempts[k].NotStarted?)
  }

  lemma FailsOnlyAfterAll(n: nat, mayBlock: bool, sched: seq<BookingRace.Label>, end: Option<BookingRace.Race>)
    requires RaceOf(n, mayBlock, sched, end) && end.value.loop.Returned? && end.value.loop.winner.None?
    requires BookingRace.ParentCancel !in sched
    ensures TriedAll(n, mayBlock, sched, end)
  {
    BookingRace.EverySlotTried(n, mayBlock, sched);
  }

  /** The reason a failed race is persisted with. */
  function RaceReason(end: BookingRace.Race): string {
    if end.loop.ReturnedBlocked? then "prepare_blocked" else "all_attempts_failed"
  }

  /** The row says Booked exactly when the race delivered a confirmation, and then shows it. */
  ghost predicate RowTellsRace(s: Snapshot, end: Option<BookingRace.Race>) {
    && (s.status == Booked ==>
        && end.Some? && end.value.loop.Returned? && end.value.loop.winner.Some?
        && s.result == Some(Reservation(end.value.loop.winner.value.bookedAt, end.value.loop.winner.value.id)))
    && (s.status == Failed && end.Some? && end.value.loop.Returned? ==> !end.value.AnySuccess())
  }

  /** How a polling loop ended. */
  datatype Verdict = Hit | WindowClosed | Stopped(outcome: Outcome)

  lemma GrowsTransitive(a: Trails, b: Trails, c: Trails, id: SnipeId)
    requires Grows(a, b, id) && Grows(b, c, id)
    ensures Grows(a, c, id)
  {
  }

  lemma CreatedRow(rows: Rows, events: EventLog, trails: Trails,
                   id: SnipeId, row: Row, e: Option<Event>)
    requires GoodTables(rows, events, trails) && id !in rows
    requires row.status == StatusName(Submitted) && row.result.None?
    requires e.Some? ==> e.value.kind == EventSubmitted
    ensures GoodTables(rows[id := row], if e.Some? then events[id := EventsAt(events, id) + [e.value]] else events,
                       trails[id := [Submitted]])
  {
    assert id !in events;
  }

  // ---- whole runs

  /** Two overlapping runs of one scheduled Explicit snipe: both load it and both wake. The
      second handle's check is against the status it loaded, so both writes can commit, and
      the tables stay sound exactly when at most one does. */
  method OverlappingRuns(e: SnipeEngine, id: SnipeId) returns (first: Outcome, second: Outcome)
    requires e.store.Valid() && id in e.store.trails && LastStatus(e.store.trails, id) == Scheduled
    modifies e.store, e.env
    ensures first != Illegal && second != Illegal
    ensures e.store.Valid() <==> !(first == Done && second == Done)
  {
    hide GoodTables;
    var h1 := e.Load(id);
    var h2 := e.Load(id);
    if h1.None? || h2.None? { return Invalid, Invalid; }
    e.NotBooked(h1.value);
    e.NotBooked(h2.value);
    first, second := BothWake(h1.value, h2.value, e.env);
  }

  method BothWake(h1: Handle, h2: Handle, env: Environment) returns (first: Outcome, second: Outcome)
    requires h1 != h2 && h1.inner != h2.inner && h1.store == h2.store && h1.inner.id == h2.inner.id
    requires h1.Attached() && h2.Attached() && h1.inner.status == h2.inner.status == Scheduled
    requires h1.inner.result.None? && h2.inner.result.None?
    requires h1.store.Valid() && LastStatus(h1.store.trails, h1.inner.id) == Scheduled
    modifies h1, h2, h1.store, env
    ensures first != Illegal && second != Illegal
    ensures h1.store.Valid() <==> !(first == Done && second == Done)
  {
    hide GoodTables, EventsAt, Handle.Fresh;
    first := h1.Transition(Awaiting, EventReleased, env);
    second := h2.Transition(Awaiting, EventReleased, env);
  }

  /** The race booked but its Booked was not persisted: the live state keeps the result. What
      is written from that handle next keeps the tables sound only if it is Booked again: a
      second race's Finding, or a Failed, puts a result where none may be. */
  method AfterFailedPersist(e: SnipeEngine, h: Handle, n: nat, mayBlock: bool, to: Status, kind: EventType)
    returns (next: Option<Outcome>)
    requires e.Drives(h) && h.inner.status == Booking && CanTransition(Booking, to) && Records(kind, to)
    modifies h, h.inner, e.store, e.env
    ensures next.None? || next.value == PersistFailed ==> e.store.Valid()
    ensures next == Some(Done) ==> (e.store.Valid() <==> to == Booked)
  {
    hide GoodTables;
    e.NotBooked(h);
    ghost var end, sched;
    var r;
    next := None;
    r, end, sched := e.Settle(h, n, mayBlock);
    if r.Unfinished? && h.inner.result.Some? {
      var o := h.Transition(to, kind, e.env);
      next := Some(o);
    }
  }

  datatype Call = SubmitCall(id: SnipeId, intent: Intent) | RunCall(id: SnipeId) | RaceCall(id: SnipeId, mayBlock: bool)

  /** Any history of calls, each on a freshly loaded handle, with the store failing and
      the context cancelled wherever they like: every row stays sound, and no recorded
      status is ever taken back. */
  method AnyHistory(e: SnipeEngine, calls: seq<Call>)
    requires e.store.Valid()
    modifies e.store, e.env
    ensures e.store.Valid()
    ensures forall id | id in old(e.store.trails) ::
      id in e.store.trails && old(e.store.trails)[id] <= e.store.trails[id]
  {
    hide GoodTables;
    for i := 0 to |calls|
      invariant e.store.Valid()
      invariant forall id | id in old(e.store.trails) ::
        id in e.store.trails && old(e.store.trails)[id] <= e.store.trails[id]
    {
      match calls[i] {
        case SubmitCall(id, intent) =>
          var h := e.Submit(id, intent);
        case RunCall(id) =>
          ghost var h, began;
          var r;
          r, h, began := e.Run(id);
        case RaceCall(id, mayBlock) =>
          var h := e.Load(id);
          if h.Some? && h.value.inner.status == Awaiting {
            ghost var end, sched, answer;
            var r;
            r, end, sched, answer := e.RunBookingRace(h.value, mayBlock);
          }
      }
    }
  }
}
