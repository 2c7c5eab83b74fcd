/** The discrete-event clock. While a callback runs the lock is free, so Schedule and Stop
    may come from it or from any other goroutine; labels are the atomic sections. */
module FakeClock {
  import opened Options
  import opened Runs
  import opened Sorting

  datatype Event = Event(deadline: int, id: nat)

  predicate Before(a: Event, b: Event) {
    a.deadline < b.deadline || (a.deadline == b.deadline && a.id < b.id)
  }

  function EventOrder(): (Event, Event) -> bool { (a, b) => a == b || Before(a, b) }

  /** An event that ran, and the clock's reading when it did. */
  datatype Firing = Firing(event: Event, reading: int)

  /** target is where a running Advance is heading; fired is the history of callbacks.
      An event's stopped flag is its number's membership in stopped. */
  datatype State = State(
    now: int, target: Option<int>, pending: seq<Event>, issued: nat, stopped: set<nat>, fired: seq<Firing>)

  function Start(now: int): State { State(now, None, [], 0, {}, []) }

  datatype Label =
    | Schedule(delay: nat)
    | Stop(id: nat)
    | Begin(d: nat)   // Advance takes the lock and fixes its target
    | Pop             // one turn of its loop
    | End             // its loop is over

  predicate Enabled(s: State, l: Label) {
    match l
    case Schedule(_) => true
    case Stop(id) => 0 < id <= s.issued
    case Begin(_) => s.target.None?
    case Pop => s.target.Some? && s.pending != [] && s.pending[0].deadline <= s.target.value
    case End => s.target.Some? && (s.pending == [] || s.pending[0].deadline > s.target.value)
  }

  function Apply(s: State, l: Label): State
    requires Enabled(s, l)
  {
    match l
    case Schedule(delay) =>
      var e := Event(s.now + delay, s.issued + 1);
      s.(pending := Sort(EventOrder(), s.pending + [e]), issued := s.issued + 1)
    case Stop(id) => s.(stopped := s.stopped + {id})
    case Begin(d) => s.(target := Some(s.now + d))
    case Pop =>
      var e := s.pending[0];
      if e.id in s.stopped then s.(pending := s.pending[1..])
      else s.(pending := s.pending[1..], now := e.deadline, fired := s.fired + [Firing(e, e.deadline)])
    case End => s.(now := s.target.value, target := None)
  }

  function Next(s: State, l: Label): Option<State> { if Enabled(s, l) then Some(Apply(s, l)) else None }

  predicate Follows(s: State, sched: seq<Label>) { CanRun(Next, s, sched) }

  function After(s: State, sched: seq<Label>): State
    requires Follows(s, sched)
  {
    Reached(Next, s, sched)
  }

  ghost predicate HasFired(s: State, id: nat) { exists i :: 0 <= i < |s.fired| && s.fired[i].event.id == id }

  ghost predicate IsPending(s: State, id: nat) { exists i :: 0 <= i < |s.pending| && s.pending[i].id == id }

  /** Fired events come one after the other, each with the clock at its deadline. */
  ghost predicate FiredInOrder(s: State) {
    && (forall i | 0 <= i < |s.fired| :: s.fired[i].reading == s.fired[i].event.deadline <= s.now)
    && (forall i, j | 0 <= i < j < |s.fired| :: Before(s.fired[i].event, s.fired[j].event))
    && (forall i, j | 0 <= i < j < |s.fired| :: s.fired[i].event.id != s.fired[j].event.id)
  }

  /** Pending events are sorted, not in the past, distinct, and after everything fired. */
  ghost predicate PendingInOrder(s: State) {
    && SortedBy(EventOrder(), s.pending)
    && (forall i | 0 <= i < |s.pending| :: s.now <= s.pending[i].deadline && 0 < s.pending[i].id <= s.issued)
    && (forall i, j | 0 <= i < j < |s.pending| :: s.pending[i].id != s.pending[j].id)
    && (forall i, j | 0 <= i < |s.fired| && 0 <= j < |s.pending| ::
          Before(s.fired[i].event, s.pending[j]) && s.fired[i].event.id != s.pending[j].id)
  }

  /** No event is forgotten: each one issued is pending, has fired or was stopped. */
  ghost predicate Accounted(s: State) {
    && (forall id: nat | 0 < id <= s.issued :: IsPending(s, id) || HasFired(s, id) || id in s.stopped)
    && (forall i | 0 <= i < |s.fired| :: 0 < s.fired[i].event.id <= s.issued)
    && (forall id | id in s.stopped :: 0 < id <= s.issued)
    && (s.target.Some? ==> s.now <= s.target.value)
  }

  ghost predicate Inv(s: State) { FiredInOrder(s) && PendingInOrder(s) && Accounted(s) }

  lemma EventsOrdered()
    ensures TotalPreorder(EventOrder())
  {
  }

  lemma ScheduleKeepsOrder(s: State, delay: nat)
    requires Inv(s)
    ensures PendingInOrder(Apply(s, Schedule(delay)))
  {
    hide Sort;
    var e := Event(s.now + delay, s.issued + 1);
    var t := Apply(s, Schedule(delay));
    EventsOrdered();
    SortCorrect(EventOrder(), s.pending + [e]);
    SortKeepsMembers(s.pending + [e]);
    SortKeepsDistinct(s.pending + [e]);
    forall j | 0 <= j < |t.pending| ensures t.pending[j] in s.pending || t.pending[j] == e {
      assert t.pending[j] in s.pending + [e];
    }
  }

  lemma ScheduleAccounted(s: State, delay: nat)
    requires Inv(s)
    ensures Accounted(Apply(s, Schedule(delay)))
  {
    hide Sort, FiredInOrder, PendingInOrder;
    var e := Event(s.now + delay, s.issued + 1);
    var t := Apply(s, Schedule(delay));
    SortKeepsMembers(s.pending + [e]);
    forall id: nat | 0 < id <= t.issued ensures IsPending(t, id) || HasFired(t, id) || id in t.stopped {
      if id == e.id {
        assert (s.pending + [e])[|s.pending|] in t.pending;
      } else if IsPending(s, id) {
        var i :| 0 <= i < |s.pending| && s.pending[i].id == id;
        assert (s.pending + [e])[i] in t.pending;
      } else if HasFired(s, id) {
        var i :| 0 <= i < |s.fired| && s.fired[i].event.id == id;
        assert t.fired[i].event.id == id;
      }
    }
  }

  lemma SortKeepsMembers(p: seq<Event>)
    ensures forall e :: e in Sort(EventOrder(), p) <==> e in p
  {
    EventsOrdered();
    SortCorrect(EventOrder(), p);
    forall e ensures e in Sort(EventOrder(), p) <==> e in p {
      assert e in multiset(Sort(EventOrder(), p)) <==> e in multiset(p);
    }
  }

  ghost predicate DistinctIds(p: seq<Event>) { forall i, j | 0 <= i < j < |p| :: p[i].id != p[j].id }

  lemma {:induction false} InsertKeepsDistinct(p: seq<Event>, x: Event)
    requires DistinctIds(p) && forall i | 0 <= i < |p| :: p[i].id != x.id
    ensures DistinctIds(Insert(EventOrder(), p, x))
    ensures forall e :: e in Insert(EventOrder(), p, x) <==> e in p || e == x
  {
    if p != [] && !EventOrder()(p[|p| - 1], x) {
      var q, l := p[..|p| - 1], p[|p| - 1];
      assert p == q + [l];
      InsertKeepsDistinct(q, x);
      var r := Insert(EventOrder(), q, x);
      forall i | 0 <= i < |r| ensures r[i].id != l.id {
        assert r[i] in r;
      }
    }
  }

  lemma {:induction false} SortKeepsDistinct(p: seq<Event>)
    requires DistinctIds(p)
    ensures DistinctIds(Sort(EventOrder(), p))
  {
    if p != [] {
      var q, x := p[..|p| - 1], p[|p| - 1];
      SortKeepsDistinct(q);
      SortKeepsMembers(q);
      var r := Sort(EventOrder(), q);
      forall i | 0 <= i < |r| ensures r[i].id != x.id {
        assert r[i] in r;
      }
      InsertKeepsDistinct(r, x);
    }
  }

  lemma PopKeepsOrder(s: State)
    requires Inv(s) && Enabled(s, Pop)
    ensures FiredInOrder(Apply(s, Pop)) && PendingInOrder(Apply(s, Pop))
  {
    assert forall j | 0 < j < |s.pending| :: Before(s.pending[0], s.pending[j]);
  }

  lemma PopAccounted(s: State)
    requires Inv(s) && Enabled(s, Pop)
    ensures Accounted(Apply(s, Pop))
  {
    hide FiredInOrder;
    var t, e := Apply(s, Pop), s.pending[0];
    forall id: nat | 0 < id <= t.issued ensures IsPending(t, id) || HasFired(t, id) || id in t.stopped {
      if IsPending(s, id) {
        var i :| 0 <= i < |s.pending| && s.pending[i].id == id;
        if i > 0 {
          assert t.pending[i - 1].id == id;
        } else if e.id !in s.stopped {
          assert t.fired[|s.fired|].event.id == id;
        }
      } else if HasFired(s, id) {
        var i :| 0 <= i < |s.fired| && s.fired[i].event.id == id;
        assert t.fired[i].event.id == id;
      }
    }
  }

  lemma OtherKeepsInv(s: State, l: Label)
    requires Inv(s) && Enabled(s, l) && (l.Stop? || l.Begin? || l.End?)
    ensures Inv(Apply(s, l))
  {
    var t := Apply(s, l);
    forall id: nat | 0 < id <= t.issued ensures IsPending(t, id) || HasFired(t, id) || id in t.stopped {
      assert IsPending(s, id) == IsPending(t, id) && HasFired(s, id) == HasFired(t, id);
    }
  }

  lemma StepKeepsInv(s: State, l: Label)
    requires Inv(s) && Enabled(s, l)
    ensures Inv(Apply(s, l))
    ensures s.now <= Apply(s, l).now && s.fired <= Apply(s, l).fired && s.stopped <= Apply(s, l).stopped
  {
    match l
    case Schedule(d) =>
      ScheduleKeepsOrder(s, d);
      ScheduleAccounted(s, d);
    case Pop =>
      PopKeepsOrder(s);
      PopAccounted(s);
    case _ => OtherKeepsInv(s, l);
  }

  lemma {:induction false} RunKeepsInv(s: State, sched: seq<Label>)
    requires Inv(s) && Follows(s, sched)
    ensures Inv(After(s, sched))
    ensures s.now <= After(s, sched).now && s.fired <= After(s, sched).fired && s.stopped <= After(s, sched).stopped
    decreases |sched|
  {
    if sched != [] {
      StepKeepsInv(s, sched[0]);
      RunKeepsInv(Apply(s, sched[0]), sched[1..]);
    }
  }

  /** Over any run: events fire strictly in (deadline, number) order, each at most once and
      with the clock at its deadline, and none is forgotten. */
  lemma EventsFireInOrder(now: int, sched: seq<Label>)
    requires Follows(Start(now), sched)
    ensures FiredInOrder(After(Start(now), sched)) && Accounted(After(Start(now), sched))
    ensures var fired := After(Start(now), sched).fired;
            forall i, j | 0 <= i < j < |fired| ::
              && fired[i].event.deadline <= fired[j].event.deadline
              && (fired[i].event.deadline == fired[j].event.deadline ==> fired[i].event.id < fired[j].event.id)
  {
    RunKeepsInv(Start(now), sched);
  }

  /** An event stopped before it fired never fires, however the run goes on. */
  lemma {:induction false} StoppedNeverFires(s: State, sched: seq<Label>, id: nat)
    requires Inv(s) && Follows(s, sched) && id in s.stopped && !HasFired(s, id)
    ensures !HasFired(After(s, sched), id)
    decreases |sched|
  {
    if sched != [] {
      StepKeepsInv(s, sched[0]);
      StoppedNeverFires(Apply(s, sched[0]), sched[1..], id);
    }
  }

  lemma NoneDueAtEnd(s: State)
    requires Inv(s) && Enabled(s, End)
    ensures forall e | e in s.pending :: e.deadline > s.target.value
  {
    forall e | e in s.pending ensures e.deadline > s.target.value {
      var i :| 0 <= i < |s.pending| && s.pending[i] == e;
      assert i == 0 || EventOrder()(s.pending[0], e);
    }
  }

  /** When Advance is done the clock stands at its target, and every event ever issued has
      fired, was stopped or lies beyond the target. */
  lemma AdvanceIsComplete(s: State, id: nat)
    requires Inv(s) && Enabled(s, End) && 0 < id <= s.issued
    ensures Apply(s, End).now == s.target.value
    ensures HasFired(s, id) || id in s.stopped
         || exists e :: e in Apply(s, End).pending && e.id == id && e.deadline > s.target.value
  {
    NoneDueAtEnd(s);
    if IsPending(s, id) {
      var i :| 0 <= i < |s.pending| && s.pending[i].id == id;
      assert s.pending[i] in s.pending;
    }
  }

  /** What fakeTimer.Stop answers. */
  predicate StopAnswer(s: State, id: nat) { id !in s.stopped }

  /** What clock.Timer asks of it: true if and only if this call kept the event from firing. */
  ghost predicate StopPrevents(s: State, id: nat) { id !in s.stopped && !HasFired(s, id) }

  /** The fake keeps the contract exactly for events that have not fired, or were stopped before. */
  lemma StopAnswersTruthfully(s: State, id: nat)
    requires Inv(s) && 0 < id <= s.issued
    ensures StopAnswer(s, id) == StopPrevents(s, id) <==> !HasFired(s, id) || id in s.stopped
    ensures StopPrevents(s, id) ==> IsPending(s, id)
  {
  }

  /** What a callback does through the clock. */
  datatype Op = SetTimer(delay: nat) | StopTimer(id: nat)

  function LabelOf(op: Op): Label {
    match op case SetTimer(d) => Schedule(d) case StopTimer(id) => Stop(id)
  }

  /** A number that no handle carries does nothing. */
  predicate Possible(s: State, op: Op) { op.StopTimer? ==> 0 < op.id <= s.issued }

  /** The state after a callback has done these operations in turn. */
  function RunOps(s: State, ops: seq<Op>): State
    decreases |ops|
  {
    if ops == [] then s
    else RunOps(if Possible(s, ops[0]) then Apply(s, LabelOf(ops[0])) else s, ops[1..])
  }

  /** One turn of Advance: nothing is due, a stopped event goes, or the next callback runs.
      base is how many events had fired before this Advance. */
  function Turn(s: State, base: nat, behave: nat -> seq<Op>): State {
    if !Enabled(s, Pop) then s
    else if s.pending[0].id in s.stopped then Apply(s, Pop)
    else RunOps(Apply(s, Pop), behave(if |s.fired| < base then 0 else |s.fired| - base))
  }

  /** The state after k turns. Once nothing is due, more turns change nothing, so the k that
      Advance ends at makes no difference. */
  function Turns(s: State, base: nat, behave: nat -> seq<Op>, k: nat): State {
    if k == 0 then s else Turn(Turns(s, base, behave, k - 1), base, behave)
  }

  lemma {:induction false} TurnsSettle(s: State, base: nat, behave: nat -> seq<Op>, k: nat, m: nat)
    requires !Enabled(Turns(s, base, behave, k), Pop) && k <= m
    ensures Turns(s, base, behave, m) == Turns(s, base, behave, k)
  {
    if k < m {
      TurnsSettle(s, base, behave, k, m - 1);
    }
  }

  /** Where Advance leads is settled by its target and its callbacks alone. */
  ghost predicate AdvancesTo(s: State, d: nat, behave: nat -> seq<Op>, t: State)
    requires Enabled(s, Begin(d))
  {
    exists k: nat :: EndsAfter(Apply(s, Begin(d)), |s.fired|, behave, k, t)
  }

  ghost predicate EndsAfter(s: State, base: nat, behave: nat -> seq<Op>, k: nat, t: State) {
    Enabled(Turns(s, base, behave, k), End) && t == Apply(Turns(s, base, behave, k), End)
  }

  lemma AdvanceIsDetermined(s: State, d: nat, behave: nat -> seq<Op>, t: State, u: State)
    requires Enabled(s, Begin(d)) && AdvancesTo(s, d, behave, t) && AdvancesTo(s, d, behave, u)
    ensures t == u
  {
    var b, base := Apply(s, Begin(d)), |s.fired|;
    var k :| EndsAfter(b, base, behave, k, t);
    var m :| EndsAfter(b, base, behave, m, u);
    if k <= m {
      TurnsSettle(b, base, behave, k, m);
    } else {
      TurnsSettle(b, base, behave, m, k);
    }
  }

  // What an Advance keeps, whatever its callbacks do

  lemma {:induction false} RunOpsKeeps(s: State, ops: seq<Op>)
    requires Inv(s)
    ensures var t := RunOps(s, ops);
            Inv(t) && t.now == s.now && t.target == s.target && t.fired == s.fired && s.stopped <= t.stopped
    decreases |ops|
  {
    hide Inv, Sort;
    if ops != [] {
      if Possible(s, ops[0]) {
        StepKeepsInv(s, LabelOf(ops[0]));
        RunOpsKeeps(Apply(s, LabelOf(ops[0])), ops[1..]);
      } else {
        RunOpsKeeps(s, ops[1..]);
      }
    }
  }

  lemma TurnKeeps(s: State, base: nat, behave: nat -> seq<Op>)
    requires Inv(s)
    ensures var t := Turn(s, base, behave); Inv(t) && t.target == s.target && s.fired <= t.fired
  {
    hide Inv, RunOps;
    if Enabled(s, Pop) {
      StepKeepsInv(s, Pop);
      RunOpsKeeps(Apply(s, Pop), behave(if |s.fired| < base then 0 else |s.fired| - base));
    }
  }

  /** An event was due at this very instant, and not stopped. */
  ghost predicate DueNow(s: State) {
    exists e :: e in s.pending && e.deadline == s.now && e.id !in s.stopped
  }

  /** Something has fired since b that was due at the instant of b. */
  ghost predicate FiredAtStart(b: State, s: State) {
    exists i :: |b.fired| <= i < |s.fired| && s.fired[i].event.deadline == b.now
  }

  ghost predicate FiredWithin(b: State, s: State, until: int) {
    forall i | |b.fired| <= i < |s.fired| :: b.now <= s.fired[i].event.deadline <= until
  }

  /** How far an Advance that began in b has come. */
  ghost predicate Progress(b: State, s: State) {
    && b.target.Some? && s.target == b.target && b.fired <= s.fired && b.now <= s.now
    && b.stopped <= s.stopped
    && FiredWithin(b, s, b.target.value)
    && (FiredAtStart(b, s) ==> DueNow(b))
    && (DueNow(b) && |s.fired| > |b.fired| ==> FiredAtStart(b, s))
    && (DueNow(b) && !FiredAtStart(b, s) ==>
          s.stopped == b.stopped
          && forall e | e in b.pending && e.deadline == b.now && e.id !in b.stopped :: e in s.pending)
    && (forall e | e in s.pending && e.deadline == b.now :: e in b.pending || FiredAtStart(b, s))
  }

  lemma HeadIsFirst(s: State, e: Event)
    requires Inv(s) && e in s.pending
    ensures s.now <= s.pending[0].deadline <= e.deadline
  {
    var i :| 0 <= i < |s.pending| && s.pending[i] == e;
    assert i == 0 || EventOrder()(s.pending[0], e);
  }

  /** The first pending event is taken off, stopped or fired. */
  lemma PopProgress(b: State, s: State)
    requires Inv(s) && Progress(b, s) && Enabled(s, Pop)
    ensures Progress(b, Apply(s, Pop))
  {
    hide Inv;
    var h, t := s.pending[0], Apply(s, Pop);
    HeadIsFirst(s, h);
    assert s.pending == [h] + s.pending[1..];
    if DueNow(b) && !FiredAtStart(b, s) {
      var e :| e in b.pending && e.deadline == b.now && e.id !in b.stopped;
      HeadIsFirst(s, e);
      assert h.deadline == b.now;
    }
    if h.id !in s.stopped {
      assert t.fired[|s.fired|].event == h;
      if h.deadline == b.now && h in b.pending {
        assert DueNow(b);
      }
    }
    if FiredAtStart(b, s) {
      var i :| |b.fired| <= i < |s.fired| && s.fired[i].event.deadline == b.now;
      assert t.fired[i] == s.fired[i];
    }
  }

  /** Once something has fired, a timer set or stopped changes nothing of that. */
  lemma OpProgress(b: State, s: State, op: Op)
    requires Inv(s) && Progress(b, s) && |s.fired| > |b.fired| && Possible(s, op)
    ensures Progress(b, Apply(s, LabelOf(op)))
  {
    var t := Apply(s, LabelOf(op));
    assert FiredAtStart(b, s) == FiredAtStart(b, t);
    if op.SetTimer? {
      var x := Event(s.now + op.delay, s.issued + 1);
      hide Sort;
      SortKeepsMembers(s.pending + [x]);
      if x.deadline == b.now {
        FirstFiring(b, s);
      }
    }
  }

  lemma FirstFiring(b: State, s: State)
    requires Inv(s) && Progress(b, s) && |s.fired| > |b.fired| && s.now == b.now
    ensures FiredAtStart(b, s)
  {
    assert s.fired[|b.fired|].event.deadline == b.now;
  }

  lemma {:induction false} RunOpsProgress(b: State, s: State, ops: seq<Op>)
    requires Inv(s) && Progress(b, s) && |s.fired| > |b.fired|
    ensures Progress(b, RunOps(s, ops))
    decreases |ops|
  {
    hide Inv, Progress, Sort;
    if ops != [] {
      if Possible(s, ops[0]) {
        OpProgress(b, s, ops[0]);
        StepKeepsInv(s, LabelOf(ops[0]));
        RunOpsProgress(b, Apply(s, LabelOf(ops[0])), ops[1..]);
      } else {
        RunOpsProgress(b, s, ops[1..]);
      }
    }
  }

  lemma {:induction false} TurnsProgress(b: State, base: nat, behave: nat -> seq<Op>, k: nat)
    requires Inv(b) && b.target.Some?
    ensures Inv(Turns(b, base, behave, k)) && Progress(b, Turns(b, base, behave, k))
  {
    hide Inv, RunOps;
    if k > 0 {
      TurnsProgress(b, base, behave, k - 1);
      var s := Turns(b, base, behave, k - 1);
      TurnKeeps(s, base, behave);
      if Enabled(s, Pop) {
        PopProgress(b, s);
        StepKeepsInv(s, Pop);
        if s.pending[0].id !in s.stopped {
          RunOpsProgress(b, Apply(s, Pop), behave(if |s.fired| < base then 0 else |s.fired| - base));
        }
      }
    }
  }

  /** Whatever an Advance fires is due in [now, now + d], both ends included; and something
      due at this very instant fires exactly when such an event was pending and not stopped. */
  lemma AdvanceFiresFromNow(s: State, d: nat, behave: nat -> seq<Op>, t: State)
    requires Inv(s) && Enabled(s, Begin(d)) && AdvancesTo(s, d, behave, t)
    ensures s.fired <= t.fired && FiredWithin(s, t, s.now + d)
    ensures FiredAtStart(s, t) <==> DueNow(s)
  {
    hide Inv;
    var b := Apply(s, Begin(d));
    StepKeepsInv(s, Begin(d));
    var k :| EndsAfter(b, |s.fired|, behave, k, t);
    TurnsProgress(b, |s.fired|, behave, k);
    var u := Turns(b, |s.fired|, behave, k);
    assert DueNow(b) == DueNow(s) && FiredAtStart(b, u) == FiredAtStart(s, t);
    if DueNow(b) && !FiredAtStart(b, u) {
      var e :| e in b.pending && e.deadline == b.now && e.id !in b.stopped;
      NoneDueAtEnd(u);
      assert false;
    }
  }

  lemma SortOne(x: Event)
    ensures Sort(EventOrder(), [] + [x]) == [x]
  {
    assert [] + [x] == [x] && [x][..0] == [];
    assert Sort(EventOrder(), []) == [];
  }

  /** An event set with no delay fires in an Advance by nothing: the documented interval
      leaves its left end out, and the loop does not. */
  lemma NowEventFires(now: int) returns (sched: seq<Label>)
    ensures sched == [Schedule(0), Begin(0), Pop, End] && Follows(Start(now), sched)
    ensures After(Start(now), sched).fired == [Firing(Event(now, 1), now)] && After(Start(now), sched).now == now
  {
    var s0 := Start(now);
    var s1 := Apply(s0, Schedule(0));
    SortOne(Event(now, 1));
    var s2 := Apply(s1, Begin(0));
    var s3 := Apply(s2, Pop);
    var s4 := Apply(s3, End);
    OneStep(Next, s0, Schedule(0));
    Extend(Next, s0, [Schedule(0)], Begin(0));
    Extend(Next, s0, [Schedule(0)] + [Begin(0)], Pop);
    Extend(Next, s0, [Schedule(0)] + [Begin(0)] + [Pop], End);
    sched := [Schedule(0)] + [Begin(0)] + [Pop] + [End];
  }

  /** After that run the event has fired, and Stop still answers that it kept it from firing. */
  lemma StopAfterFiring(now: int) returns (sched: seq<Label>)
    ensures Follows(Start(now), sched)
    ensures var s := After(Start(now), sched); HasFired(s, 1) && StopAnswer(s, 1) && !StopPrevents(s, 1)
  {
    sched := NowEventFires(now);
    var s := After(Start(now), sched);
    assert s.fired[0].event.id == 1;
    StopsUnused(Start(now), sched);
  }

  lemma {:induction false} StopsUnused(s: State, sched: seq<Label>)
    requires Follows(s, sched) && forall l | l in sched :: !l.Stop?
    ensures After(s, sched).stopped == s.stopped
    decreases |sched|
  {
    if sched != [] {
      assert sched[0] in sched && forall l | l in sched[1..] :: l in sched;
      StopsUnused(Apply(s, sched[0]), sched[1..]);
    }
  }

  // When an Advance ends

  ghost predicate Ends(s: State, d: nat, behave: nat -> seq<Op>)
    requires Enabled(s, Begin(d))
  {
    exists k: nat :: !Enabled(Turns(Apply(s, Begin(d)), |s.fired|, behave, k), Pop)
  }

  lemma {:induction false} TurnsShift(s: State, base: nat, behave: nat -> seq<Op>, k: nat)
    ensures Turns(Turn(s, base, behave), base, behave, k) == Turns(s, base, behave, k + 1)
  {
    if k > 0 {
      TurnsShift(s, base, behave, k - 1);
    }
  }

  /** Events of one deadline still pending: each turn of Advance either uses one up or
      moves on to a later deadline. */
  function DueAt(pending: seq<Event>, deadline: int): nat {
    if pending == [] then 0
    else (if pending[0].deadline == deadline then 1 else 0) + DueAt(pending[1..], deadline)
  }

  lemma {:induction false} InsertLeavesDue(p: seq<Event>, x: Event, deadline: int)
    requires x.deadline != deadline
    ensures DueAt(Insert(EventOrder(), p, x), deadline) == DueAt(p, deadline)
  {
    if p == [] || EventOrder()(p[|p| - 1], x) {
      DueAppend(p, x, deadline);
    } else {
      var q, l := p[..|p| - 1], p[|p| - 1];
      InsertLeavesDue(q, x, deadline);
      DueAppend(Insert(EventOrder(), q, x), l, deadline);
      DueAppend(q, l, deadline);
      assert p == q + [l];
    }
  }

  lemma {:induction false} DueAppend(p: seq<Event>, x: Event, deadline: int)
    ensures DueAt(p + [x], deadline) == DueAt(p, deadline) + if x.deadline == deadline then 1 else 0
  {
    if p == [] {
      assert [x][1..] == [];
    } else {
      assert (p + [x])[1..] == p[1..] + [x];
      DueAppend(p[1..], x, deadline);
    }
  }

  /** A timer set for later than now leaves what is due now as it was. */
  lemma ScheduleLeavesDue(s: State, delay: nat)
    requires Inv(s) && delay > 0
    ensures DueAt(Apply(s, Schedule(delay)).pending, s.now) == DueAt(s.pending, s.now)
  {
    hide Before, DueAt, Insert, FiredInOrder, Accounted;
    var e := Event(s.now + delay, s.issued + 1);
    EventsOrdered();
    assert (s.pending + [e])[..|s.pending|] == s.pending;
    SortOfSorted(EventOrder(), s.pending);
    InsertLeavesDue(s.pending, e, s.now);
  }

  lemma OpFacts(s: State, op: Op)
    requires Inv(s) && Enabled(s, LabelOf(op)) && (op.SetTimer? ==> op.delay > 0)
    ensures Apply(s, LabelOf(op)).now == s.now && Apply(s, LabelOf(op)).target == s.target
    ensures Apply(s, LabelOf(op)).fired == s.fired
    ensures DueAt(Apply(s, LabelOf(op)).pending, s.now) == DueAt(s.pending, s.now)
  {
    hide Inv, Sort, DueAt;
    if op.SetTimer? {
      ScheduleLeavesDue(s, op.delay);
    }
  }

  lemma PopFacts(s: State)
    requires Inv(s) && Enabled(s, Pop)
    ensures DueAt(s.pending[1..], s.pending[0].deadline) == DueAt(s.pending, s.pending[0].deadline) - 1
    ensures |s.pending| > 1 ==> s.pending[1].deadline >= s.pending[0].deadline
  {
    if |s.pending| > 1 {
      assert EventOrder()(s.pending[0], s.pending[1]);
    }
  }

  lemma HeadNotPast(s: State)
    requires Inv(s)
    ensures s.pending != [] ==> s.pending[0].deadline >= s.now
  {
  }

  /** From the calm-th firing on, every timer a callback sets is at least one tick away. */
  ghost predicate CalmFrom(behave: nat -> seq<Op>, calm: nat) {
    forall n, op | n >= calm && op in behave(n) && op.SetTimer? :: op.delay > 0
  }

  lemma {:induction false} RunOpsLeavesDue(s: State, ops: seq<Op>)
    requires Inv(s) && forall op | op in ops && op.SetTimer? :: op.delay > 0
    ensures DueAt(RunOps(s, ops).pending, s.now) == DueAt(s.pending, s.now)
    decreases |ops|
  {
    hide Inv, Sort, DueAt;
    if ops != [] {
      if Possible(s, ops[0]) {
        OpFacts(s, ops[0]);
        StepKeepsInv(s, LabelOf(ops[0]));
        RunOpsLeavesDue(Apply(s, LabelOf(ops[0])), ops[1..]);
      } else {
        RunOpsLeavesDue(s, ops[1..]);
      }
    }
  }

  /** A turn that sets no timer for its own instant uses up one event of the head's deadline,
      or leaves only later ones. */
  lemma TurnUsesOne(s: State, base: nat, behave: nat -> seq<Op>)
    requires Inv(s) && Enabled(s, Pop) && base <= |s.fired|
    requires s.pending[0].id in s.stopped || forall op | op in behave(|s.fired| - base) && op.SetTimer? :: op.delay > 0
    ensures var t, h := Turn(s, base, behave), s.pending[0].deadline;
            DueAt(t.pending, h) == DueAt(s.pending, h) - 1 && (t.pending != [] ==> t.pending[0].deadline >= h)
  {
    hide Inv, DueAt, RunOps;
    PopFacts(s);
    StepKeepsInv(s, Pop);
    if s.pending[0].id !in s.stopped {
      var u, ops := Apply(s, Pop), behave(|s.fired| - base);
      RunOpsLeavesDue(u, ops);
      RunOpsKeeps(u, ops);
      HeadNotPast(RunOps(u, ops));
    }
  }

  lemma TurnFires(s: State, base: nat, behave: nat -> seq<Op>)
    requires Inv(s) && Enabled(s, Pop)
    ensures |Turn(s, base, behave).fired| == |s.fired| + if s.pending[0].id in s.stopped then 0 else 1
  {
    hide Inv, RunOps;
    StepKeepsInv(s, Pop);
    RunOpsKeeps(Apply(s, Pop), behave(if |s.fired| < base then 0 else |s.fired| - base));
  }

  lemma {:induction false} TurnsEnd(s: State, base: nat, behave: nat -> seq<Op>, calm: nat) returns (k: nat)
    requires Inv(s) && s.target.Some? && base <= |s.fired| && CalmFrom(behave, calm)
    ensures !Enabled(Turns(s, base, behave, k), Pop)
    decreases if |s.fired| - base < calm then calm - (|s.fired| - base) else 0,
              if s.pending == [] then 0 else s.target.value - s.pending[0].deadline + 1,
              if s.pending == [] then 0 else DueAt(s.pending, s.pending[0].deadline)
  {
    hide Inv, Turn, DueAt;
    if !Enabled(s, Pop) {
      k := 0;
    } else {
      TurnKeeps(s, base, behave);
      TurnFires(s, base, behave);
      if s.pending[0].id in s.stopped || |s.fired| - base >= calm {
        TurnUsesOne(s, base, behave);
      }
      k := TurnsEnd(Turn(s, base, behave), base, behave, calm);
      TurnsShift(s, base, behave, k);
      k := k + 1;
    }
  }

  /** Advance ends when all but finitely many callbacks set their timers at least a tick ahead. */
  lemma CalmAdvanceEnds(s: State, d: nat, behave: nat -> seq<Op>, calm: nat)
    requires Inv(s) && Enabled(s, Begin(d)) && CalmFrom(behave, calm)
    ensures Ends(s, d, behave)
  {
    hide Inv;
    StepKeepsInv(s, Begin(d));
    var k := TurnsEnd(Apply(s, Begin(d)), |s.fired|, behave, calm);
  }

  function Rearm(): nat -> seq<Op> { n => [SetTimer(0)] }

  lemma {:induction false} RearmedAgain(s: State, base: nat, k: nat)
    requires s.target.Some? && |s.pending| == 1 && s.pending[0].deadline <= s.target.value
    requires s.pending[0].id == s.issued && forall id | id in s.stopped :: id < s.issued
    ensures var t := Turns(s, base, Rearm(), k);
            && t.target == s.target && |t.pending| == 1 && t.pending[0].deadline == s.pending[0].deadline
            && t.pending[0].id == t.issued && forall id | id in t.stopped :: id < t.issued
  {
    if k > 0 {
      RearmedAgain(s, base, k - 1);
      RearmOnce(Turns(s, base, Rearm(), k - 1), base);
    }
  }

  lemma RearmOnce(s: State, base: nat)
    requires s.target.Some? && |s.pending| == 1 && s.pending[0].deadline <= s.target.value
    requires s.pending[0].id == s.issued && forall id | id in s.stopped :: id < s.issued
    ensures var t := Turn(s, base, Rearm());
            && t.target == s.target && t.stopped == s.stopped && t.issued == s.issued + 1
            && t.pending == [Event(s.pending[0].deadline, t.issued)]
  {
    var u, op := Apply(s, Pop), SetTimer(0);
    assert u.pending == [];
    var x := Event(u.now, u.issued + 1);
    SortOne(x);
    assert Rearm()(if |s.fired| < base then 0 else |s.fired| - base) == [op];
    assert [op][1..] == [];
    assert RunOps(u, [op]) == RunOps(Apply(u, LabelOf(op)), []);
  }

  lemma BeginRun(s: State, d: nat)
    requires Enabled(s, Begin(d))
    ensures Follows(s, [Begin(d)]) && After(s, [Begin(d)]) == Apply(s, Begin(d))
  {
    OneStep(Next, s, Begin(d));
  }

  lemma Lengthen(s: State, sched: seq<Label>, l: Label)
    requires Follows(s, sched) && Enabled(After(s, sched), l)
    ensures Follows(s, sched + [l]) && After(s, sched + [l]) == Apply(After(s, sched), l)
  {
    Extend(Next, s, sched, l);
  }

  /** A callback that always sets its timer again with no delay keeps Advance from ending,
      however short the Advance. */
  lemma RearmingNeverEnds(now: int, d: nat)
    ensures !Ends(Apply(Start(now), Schedule(0)), d, Rearm())
  {
    var s := Apply(Start(now), Schedule(0));
    SortOne(Event(now, 1));
    forall k: nat ensures Enabled(Turns(Apply(s, Begin(d)), |s.fired|, Rearm(), k), Pop) {
      RearmedAgain(Apply(s, Begin(d)), |s.fired|, k);
    }
  }

  class Fake {
    var now: int
    var pending: seq<Event>
    var issued: nat
    var stopped: set<nat>
    ghost var target: Option<int>
    ghost var fired: seq<Firing>

    ghost function View(): State
      reads this
    {
      State(now, target, pending, issued, stopped, fired)
    }

    ghost predicate Valid()
      reads this
    {
      Inv(View())
    }

    constructor (start: int)
      ensures Valid() && View() == Start(start)
    {
      now, pending, issued, stopped, target, fired := start, [], 0, {}, None, [];
    }

    method AddEvent(delay: nat) returns (id: nat)
      requires Valid()
      modifies this
      ensures Valid() && View() == Apply(old(View()), Schedule(delay)) && id == issued
    {
      hide Inv, Sort, Before, EventOrder;
      StepKeepsInv(View(), Schedule(delay));
      issued := issued + 1;
      var p := pending + [Event(now + delay, issued)];
      var a := new Event[|p|](i requires 0 <= i < |p| => p[i]);
      assert a[..] == p;
      InsertionSort(a, EventOrder());
      pending := a[..];
      id := issued;
    }

    method StopEvent(id: nat) returns (ok: bool)
      requires Valid() && 0 < id <= issued
      modifies this
      ensures Valid() && View() == Apply(old(View()), Stop(id)) && ok == StopAnswer(old(View()), id)
    {
      StepKeepsInv(View(), Stop(id));
      ok := id !in stopped;
      if ok {
        stopped := stopped + {id};
      }
      assert stopped == old(stopped) + {id};
    }

    /** The first pending event fires: the clock moves to its deadline and its callback
        does these operations. */
    method Fire(ops: seq<Op>, ghost s0: State, ghost sched: seq<Label>) returns (ghost more: seq<Label>)
      requires Valid() && Follows(s0, sched) && After(s0, sched) == View()
      requires Enabled(View(), Pop) && pending[0].id !in stopped
      modifies this
      ensures Valid() && Follows(s0, more) && After(s0, more) == View()
      ensures View() == RunOps(Apply(old(View()), Pop), ops)
      ensures now == old(pending[0].deadline) && target == old(target)
      ensures fired == old(fired + [Firing(pending[0], pending[0].deadline)])
    {
      hide Inv, Sort, DueAt, Before, EventOrder, Follows, After;
      var e := pending[0];
      Lengthen(s0, sched, Pop);
      StepKeepsInv(View(), Pop);
      more := sched + [Pop];
      pending, now := pending[1..], e.deadline;
      fired := fired + [Firing(e, e.deadline)];
      more := Perform(ops, s0, more);
    }

    method Perform(ops: seq<Op>, ghost s0: State, ghost sched: seq<Label>) returns (ghost more: seq<Label>)
      requires Valid() && Follows(s0, sched) && After(s0, sched) == View()
      modifies this
      ensures Valid() && Follows(s0, more) && After(s0, more) == View()
      ensures View() == RunOps(old(View()), ops)
      ensures now == old(now) && target == old(target) && fired == old(fired)
    {
      hide Inv, Apply, Sort, DueAt, Before, EventOrder, Follows, After;
      more := sched;
      for i := 0 to |ops|
        invariant Valid() && Follows(s0, more) && After(s0, more) == View()
        invariant RunOps(View(), ops[i..]) == RunOps(old(View()), ops)
        invariant now == old(now) && target == old(target) && fired == old(fired)
      {
        var op := ops[i];
        assert ops[i..][1..] == ops[i + 1..] && ops[i..][0] == op;
        if op.SetTimer? || 0 < op.id <= issued {
          Lengthen(s0, more, LabelOf(op));
          RunOpsKeeps(View(), [op]);
          OneOp(View(), op);
          more := more + [LabelOf(op)];
          match op
          case SetTimer(d) => var id := AddEvent(d);
          case StopTimer(id) => var ok := StopEvent(id);
        }
      }
    }

    /** Advance, with the callback of the n-th firing doing behave(n). It leads where its turns
        lead, and it is a run of the machine, so everything proved of runs holds of it. */
    method Advance(d: nat, behave: nat -> seq<Op>) returns (ghost sched: seq<Label>)
      requires Valid() && target.None? && Ends(View(), d, behave)
      modifies this
      ensures Valid() && target.None? && now == old(now) + d
      ensures Follows(old(View()), sched) && After(old(View()), sched) == View()
      ensures AdvancesTo(old(View()), d, behave, View())
      ensures forall e | e in pending :: e.deadline > now
      ensures old(fired) <= fired
      ensures forall i | |old(fired)| <= i < |fired| :: old(now) <= fired[i].event.deadline <= now
      ensures (exists i :: |old(fired)| <= i < |fired| && fired[i].event.deadline == old(now))
         <==> exists e :: e in old(pending) && e.deadline == old(now) && e.id !in old(stopped)
    {
      hide Inv, Sort, Before, EventOrder, Follows, After, RunOps, Turns;
      ghost var s0 := View();
      var goal, n := now + d, 0;
      BeginRun(s0, d);
      StepKeepsInv(s0, Begin(d));
      sched := [Begin(d)];
      target := Some(goal);
      ghost var begun, k: nat := View(), 0;
      ghost var last: nat :| !Enabled(Turns(begun, |s0.fired|, behave, last), Pop);
      TurnsStart(begun, |s0.fired|, behave);
      while pending != [] && pending[0].deadline <= goal
        invariant Valid() && target == Some(goal) && |fired| == |old(fired)| + n && old(fired) <= fired
        invariant Follows(s0, sched) && After(s0, sched) == View()
        invariant View() == Turns(begun, |s0.fired|, behave, k) && k <= last
        decreases last - k
      {
        if k == last { assert false; }
        var e := pending[0];
        NextTurn(begun, |s0.fired|, behave, k);
        if e.id in stopped {
          Lengthen(s0, sched, Pop);
          StepKeepsInv(View(), Pop);
          sched := sched + [Pop];
          pending := pending[1..];
        } else {
          sched := Fire(behave(n), s0, sched);
          n := n + 1;
        }
        k := k + 1;
      }
      Lengthen(s0, sched, End);
      StepKeepsInv(View(), End);
      NoneDueAtEnd(View());
      sched := sched + [End];
      now, target := goal, None;
      assert EndsAfter(begun, |s0.fired|, behave, k, View());
      AdvanceFiresFromNow(s0, d, behave, View());
    }
  }

  lemma OneOp(s: State, op: Op)
    requires Possible(s, op)
    ensures RunOps(s, [op]) == Apply(s, LabelOf(op))
  {
    assert [op][1..] == [];
    assert RunOps(Apply(s, LabelOf(op)), []) == Apply(s, LabelOf(op));
  }

  lemma TurnsStart(s: State, base: nat, behave: nat -> seq<Op>)
    ensures Turns(s, base, behave, 0) == s
  {
  }

  lemma NextTurn(s: State, base: nat, behave: nat -> seq<Op>, k: nat)
    ensures Turns(s, base, behave, k + 1) == Turn(Turns(s, base, behave, k), base, behave)
  {
  }
}
