/** CreateQuest calls that overlap: the service holds no lock between the lookup and the
    record, so the lookup, the work and the record of each call are actions of their own. */
module OverlappingCreates {
  import opened Counting
  import opened IdempotencyStore
  import opened Options
  import opened QuestService
  import opened Runs

  /** What the calls share; key is not empty. */
  datatype Request = Request(user: string, key: string, payload: string)

  /** A call with its own outcome: id is empty when it made no quest, error for a success. */
  datatype Progress =
    | Waiting
    | Working                              // looked up, and fresh
    | Worked(id: string, error: string)    // about to record
    | Answered(id: string, error: string)
    | Replied(id: string, error: string)   // from the table
    | Refused                              // a conflict, or a failed lookup

  predicate WentFresh(p: Progress) { p.Working? || p.Worked? || p.Answered? }

  predicate MadeQuest(p: Progress) { (p.Worked? || p.Answered?) && p.id != "" }

  predicate Over(p: Progress) { p.Answered? || p.Replied? || p.Refused? }

  /** nows are the calls' readings of the clock; stored are the calls that recorded, in order. */
  datatype State = State(
    req: Request, nows: seq<int>, table: Table, calls: seq<Progress>, quests: seq<string>, stored: seq<nat>)

  function Start(req: Request, table: Table, nows: seq<int>): State {
    State(req, nows, table, seq(|nows|, _ => Waiting), [], [])
  }

  datatype Label =
    | Look(i: nat)
    | LookFails(i: nat)
    | Work(i: nat, id: string, error: string)
    | Record(i: nat, kept: bool)   // a failed write is only logged

  predicate Enabled(s: State, l: Label) {
    && l.i < |s.calls| == |s.nows|
    && match l
       case Look(i) => s.calls[i].Waiting?
       case LookFails(i) => s.calls[i].Waiting?
       case Work(i, id, error) => s.calls[i].Working? && id !in s.quests && (id == "" ==> error != "")
       case Record(i, _) => s.calls[i].Worked?
  }

  ghost function Verdict(r: Request, t: Table, now: int): IdempotencyStore.Verdict {
    Decide(t, r.user, CREATE, r.key, r.payload, now)
  }

  ghost function Looked(v: IdempotencyStore.Verdict): Progress {
    match v
    case Fresh => Working
    case Replay(id, error) => Replied(id, error)
    case Conflict => Refused
  }

  function WithRow(r: Request, t: Table, id: string, error: string, now: int): Table {
    Put(t, r.user, CREATE, r.key, r.payload, id, error, now)
  }

  ghost function Apply(s: State, l: Label): State
    requires Enabled(s, l)
  {
    match l
    case Look(i) => s.(calls := s.calls[i := Looked(Verdict(s.req, s.table, s.nows[i]))])
    case LookFails(i) => s.(calls := s.calls[i := Refused])
    case Work(i, id, error) =>
      s.(calls := s.calls[i := Worked(id, error)], quests := if id == "" then s.quests else s.quests + [id])
    case Record(i, kept) =>
      var c := s.calls[i];
      var t := s.(calls := s.calls[i := Answered(c.id, c.error)]);
      if kept then t.(table := WithRow(s.req, s.table, c.id, c.error, s.nows[i]), stored := s.stored + [i]) else t
  }

  ghost function Next(s: State, l: Label): Option<State> { if Enabled(s, l) then Some(Apply(s, l)) else None }

  ghost predicate Follows(s: State, sched: seq<Label>) { CanRun(Next, s, sched) }

  ghost function After(s: State, sched: seq<Label>): State
    requires Follows(s, sched)
  {
    Reached(Next, s, sched)
  }

  /** Each call would be fresh by itself, and is made while a record of any of them is live. */
  ghost predicate Opening(r: Request, table: Table, nows: seq<int>) {
    && (forall i | 0 <= i < |nows| :: Verdict(r, table, nows[i]) == Fresh)
    && forall i, j | 0 <= i < |nows| && 0 <= j < |nows| :: nows[i] < Millis(nows[j] + TTL)
  }

  ghost function FreshCalls(calls: seq<Progress>): set<nat> { set i: nat | i < |calls| && WentFresh(calls[i]) }

  ghost function Makers(calls: seq<Progress>): set<nat> { set i: nat | i < |calls| && MadeQuest(calls[i]) }

  /** The table is the first one with the outcome of the last call that recorded. */
  ghost predicate TableIs(s: State, first: Table) {
    && (forall j | 0 <= j < |s.stored| :: s.stored[j] < |s.calls| && s.calls[s.stored[j]].Answered?)
    && |s.calls| == |s.nows|
    && if s.stored == [] then s.table == first
       else
         var last := s.stored[|s.stored| - 1];
         s.table == WithRow(s.req, first, s.calls[last].id, s.calls[last].error, s.nows[last])
  }

  /** A call records once, and each quest is of one call. */
  ghost predicate Counted(s: State) {
    && (forall j, k | 0 <= j < k < |s.stored| :: s.stored[j] != s.stored[k])
    && IdsKnown(s.calls, s.quests)
    && |s.quests| == |Makers(s.calls)|
  }

  ghost predicate Inv(s: State, first: Table) { TableIs(s, first) && Counted(s) }

  lemma PutAgain(r: Request, t: Table, id: string, error: string, now: int, id': string, error': string, now': int)
    ensures WithRow(r, WithRow(r, t, id, error, now), id', error', now') == WithRow(r, t, id', error', now')
  {
  }

  lemma TableKept(s: State, first: Table, l: Label)
    requires TableIs(s, first) && Enabled(s, l)
    ensures TableIs(Apply(s, l), first)
  {
    hide Put, Decide;
    if l.Record? && l.kept && s.stored != [] {
      var last, c := s.stored[|s.stored| - 1], s.calls[l.i];
      PutAgain(s.req, first, s.calls[last].id, s.calls[last].error, s.nows[last], c.id, c.error, s.nows[l.i]);
    }
  }

  lemma MakersUpdate(calls: seq<Progress>, i: nat, p: Progress)
    requires i < |calls|
    ensures MadeQuest(calls[i]) == MadeQuest(p) ==> Makers(calls[i := p]) == Makers(calls)
    ensures !MadeQuest(calls[i]) && MadeQuest(p) ==> |Makers(calls[i := p])| == |Makers(calls)| + 1
  {
    if !MadeQuest(calls[i]) && MadeQuest(p) {
      assert Makers(calls[i := p]) == Makers(calls) + {i} && i !in Makers(calls);
    }
  }

  ghost predicate IdsKnown(calls: seq<Progress>, quests: seq<string>) {
    && (forall i | 0 <= i < |calls| && MadeQuest(calls[i]) :: calls[i].id in quests)
    && forall i, j | 0 <= i < j < |calls| && MadeQuest(calls[i]) && MadeQuest(calls[j]) :: calls[i].id != calls[j].id
  }

  lemma IdsUpdate(calls: seq<Progress>, quests: seq<string>, i: nat, p: Progress)
    requires IdsKnown(calls, quests) && i < |calls|
    ensures MadeQuest(calls[i]) && MadeQuest(p) && calls[i].id == p.id ==> IdsKnown(calls[i := p], quests)
    ensures !MadeQuest(p) ==> IdsKnown(calls[i := p], quests)
    ensures !MadeQuest(calls[i]) && MadeQuest(p) && p.id !in quests ==> IdsKnown(calls[i := p], quests + [p.id])
  {
  }

  lemma CountedKept(s: State, first: Table, l: Label)
    requires TableIs(s, first) && Counted(s) && Enabled(s, l)
    ensures Counted(Apply(s, l))
  {
    hide Put, Decide, Makers, IdsKnown;
    var t := Apply(s, l);
    MakersUpdate(s.calls, l.i, t.calls[l.i]);
    IdsUpdate(s.calls, s.quests, l.i, t.calls[l.i]);
  }

  lemma {:induction false} RunKeepsInv(s: State, first: Table, sched: seq<Label>)
    requires Inv(s, first) && Follows(s, sched)
    ensures Inv(After(s, sched), first)
    ensures After(s, sched).req == s.req && After(s, sched).nows == s.nows
    decreases |sched|
  {
    hide TableIs, Counted;
    if sched != [] {
      TableKept(s, first, sched[0]);
      CountedKept(s, first, sched[0]);
      RunKeepsInv(Apply(s, sched[0]), first, sched[1..]);
    }
  }

  lemma StartInv(r: Request, first: Table, nows: seq<int>)
    ensures Inv(Start(r, first, nows), first) && FreshCalls(Start(r, first, nows).calls) == {}
  {
    assert Makers(Start(r, first, nows).calls) == {};
  }

  /** A look is fresh exactly until the first record, and after it is answered with the last. */
  lemma LookFinds(s: State, first: Table, i: nat)
    requires Opening(s.req, first, s.nows) && TableIs(s, first) && i < |s.calls|
    ensures Verdict(s.req, s.table, s.nows[i]) ==
            if s.stored == [] then Fresh
            else var last := s.calls[s.stored[|s.stored| - 1]]; Replay(last.id, last.error)
  {
  }

  // ---- which calls do the work

  /** The calls whose lookup comes before the first record that was kept. */
  ghost function EarlyLooks(sched: seq<Label>): set<nat> {
    if sched == [] || (sched[0].Record? && sched[0].kept) then {}
    else (if sched[0].Look? then {sched[0].i} else {}) + EarlyLooks(sched[1..])
  }

  lemma FreshStep(s: State, first: Table, l: Label)
    requires Opening(s.req, first, s.nows) && TableIs(s, first) && Enabled(s, l)
    ensures FreshCalls(Apply(s, l).calls) == FreshCalls(s.calls) + if l.Look? && s.stored == [] then {l.i} else {}
    ensures Apply(s, l).stored == [] <==> s.stored == [] && !(l.Record? && l.kept)
  {
    hide Opening, Decide, Put, TableIs;
    if l.Look? {
      LookFinds(s, first, l.i);
    }
  }

  lemma {:induction false} FreshRun(s: State, first: Table, sched: seq<Label>)
    requires Opening(s.req, first, s.nows) && TableIs(s, first) && Follows(s, sched)
    ensures FreshCalls(After(s, sched).calls) == FreshCalls(s.calls) + if s.stored == [] then EarlyLooks(sched) else {}
    decreases |sched|
  {
    hide Opening, TableIs, FreshCalls;
    if sched != [] {
      TableKept(s, first, sched[0]);
      FreshStep(s, first, sched[0]);
      FreshRun(Apply(s, sched[0]), first, sched[1..]);
    }
  }

  /** Every call is back, and each that worked made its quest. */
  predicate AllMade(s: State) {
    forall i | 0 <= i < |s.calls| :: Over(s.calls[i]) && (s.calls[i].Answered? ==> s.calls[i].id != "")
  }

  lemma MakersAreFresh(s: State)
    ensures Makers(s.calls) <= FreshCalls(s.calls)
    ensures AllMade(s) ==> Makers(s.calls) == FreshCalls(s.calls)
  {
  }

  /** In every interleaving: the calls that do the work are the ones that looked before the
      first record was kept. They make at most one quest each, and one each if all succeed. */
  lemma WorkDoneExactly(r: Request, first: Table, nows: seq<int>, sched: seq<Label>)
    requires Opening(r, first, nows) && Follows(Start(r, first, nows), sched)
    ensures var s := After(Start(r, first, nows), sched);
            && FreshCalls(s.calls) == EarlyLooks(sched)
            && |s.quests| <= |EarlyLooks(sched)|
            && (AllMade(s) ==> |s.quests| == |EarlyLooks(sched)|)
  {
    var s0 := Start(r, first, nows);
    StartInv(r, first, nows);
    RunKeepsInv(s0, first, sched);
    FreshRun(s0, first, sched);
    var s := After(s0, sched);
    MakersAreFresh(s);
    SubsetSize(Makers(s.calls), FreshCalls(s.calls));
  }

  /** No call is between its lookup and its record. */
  predicate NoneInFlight(s: State) { forall i | 0 <= i < |s.calls| :: !s.calls[i].Working? && !s.calls[i].Worked? }

  /** One call at a time, and every record kept: what a lock around a call would give. */
  ghost predicate OneAtATime(s: State, sched: seq<Label>)
    requires Follows(s, sched)
    decreases |sched|
  {
    sched == [] ||
    (&& (sched[0].Look? ==> NoneInFlight(s)) && (sched[0].Record? ==> sched[0].kept)
     && OneAtATime(Apply(s, sched[0]), sched[1..]))
  }

  /** Without a record so far, whoever went fresh is still at work. */
  ghost predicate AtMostOneFresh(s: State) {
    && |FreshCalls(s.calls)| <= 1
    && (s.stored == [] ==> forall i | 0 <= i < |s.calls| :: !s.calls[i].Answered?)
  }

  lemma LockedStep(s: State, first: Table, l: Label)
    requires Opening(s.req, first, s.nows) && TableIs(s, first) && AtMostOneFresh(s) && Enabled(s, l)
    requires (l.Look? ==> NoneInFlight(s)) && (l.Record? ==> l.kept)
    ensures AtMostOneFresh(Apply(s, l))
  {
    FreshStep(s, first, l);
    hide Opening, Decide, Put, TableIs;
    if l.Look? && s.stored == [] {
      assert FreshCalls(s.calls) == {};
      assert FreshCalls(Apply(s, l).calls) == {l.i};
    }
  }

  lemma {:induction false} LockedRun(s: State, first: Table, sched: seq<Label>)
    requires Opening(s.req, first, s.nows) && TableIs(s, first) && AtMostOneFresh(s)
    requires Follows(s, sched) && OneAtATime(s, sched)
    ensures |FreshCalls(After(s, sched).calls)| <= 1
    decreases |sched|
  {
    hide Opening, TableIs, FreshCalls;
    if sched != [] {
      TableKept(s, first, sched[0]);
      LockedStep(s, first, sched[0]);
      LockedRun(Apply(s, sched[0]), first, sched[1..]);
    } else {
      AtMostOne(s);
    }
  }

  lemma AtMostOne(s: State)
    requires AtMostOneFresh(s)
    ensures |FreshCalls(s.calls)| <= 1
  {
  }

  /** One at a time, any number of calls make at most one quest between them. */
  lemma OneAtATimeMakesOne(r: Request, first: Table, nows: seq<int>, sched: seq<Label>)
    requires Opening(r, first, nows) && Follows(Start(r, first, nows), sched)
    requires OneAtATime(Start(r, first, nows), sched)
    ensures |After(Start(r, first, nows), sched).quests| <= 1
  {
    StartInv(r, first, nows);
    LockedRun(Start(r, first, nows), first, sched);
    WorkDoneExactly(r, first, nows, sched);
  }

  // ---- what stays on record

  /** Of the calls that recorded a quest, the one a later call is answered with is the last;
      any other's row has been overwritten while it was live. */
  lemma RecordSurvivesExactly(r: Request, first: Table, nows: seq<int>, sched: seq<Label>, j: nat, later: int)
    requires Follows(Start(r, first, nows), sched)
    requires var s := After(Start(r, first, nows), sched);
             && j < |s.stored| && s.stored[j] < |s.calls| && MadeQuest(s.calls[s.stored[j]])
             && s.stored[|s.stored| - 1] < |nows| && later < Millis(nows[s.stored[|s.stored| - 1]] + TTL)
    ensures var s := After(Start(r, first, nows), sched);
            var c := s.calls[s.stored[j]];
            Verdict(r, s.table, later) == Replay(c.id, c.error) <==> j == |s.stored| - 1
  {
    StartInv(r, first, nows);
    RunKeepsInv(Start(r, first, nows), first, sched);
  }

  // ---- two calls at once

  /** Both look before either records: two quests for one key, each caller told of its own,
      and only the second on record. */
  lemma TwoQuests(r: Request, first: Table, nows: seq<int>) returns (sched: seq<Label>)
    requires Opening(r, first, nows) && |nows| >= 2
    ensures Follows(Start(r, first, nows), sched)
    ensures var s := After(Start(r, first, nows), sched);
            && |s.calls| == |nows| && s.quests == ["a", "b"] && s.calls[..2] == [Answered("a", ""), Answered("b", "")]
            && s.stored == [0, 1] && Verdict(r, s.table, nows[0]) == Replay("b", "")
  {
    var s0 := Start(r, first, nows);
    NoStep(Next, s0);
    var s;
    sched, s := Then(s0, [], s0, Look(0));
    sched, s := Then(s0, sched, s, Look(1));
    sched, s := Then(s0, sched, s, Work(0, "a", ""));
    sched, s := Then(s0, sched, s, Work(1, "b", ""));
    sched, s := Then(s0, sched, s, Record(0, true));
    sched, s := Then(s0, sched, s, Record(1, true));
  }

  lemma Then(s0: State, sched: seq<Label>, s: State, l: Label) returns (longer: seq<Label>, t: State)
    requires Follows(s0, sched) && After(s0, sched) == s && Enabled(s, l)
    ensures longer == sched + [l] && t == Apply(s, l)
    ensures Follows(s0, longer) && After(s0, longer) == t
  {
    Extend(Next, s0, sched, l);
    longer, t := sched + [l], Apply(s, l);
  }

  /** The key's promise of at most one quest holds in every interleaving exactly when there is
      no second call to overlap with. */
  lemma AtMostOneQuestExactly(r: Request, first: Table, nows: seq<int>)
    requires Opening(r, first, nows)
    ensures (forall sched :: Follows(Start(r, first, nows), sched) ==>
               |After(Start(r, first, nows), sched).quests| <= 1)
       <==> |nows| <= 1
  {
    if |nows| <= 1 {
      forall sched | Follows(Start(r, first, nows), sched)
        ensures |After(Start(r, first, nows), sched).quests| <= 1
      {
        WorkDoneExactly(r, first, nows, sched);
        StartInv(r, first, nows);
        RunKeepsInv(Start(r, first, nows), first, sched);
        FewFresh(After(Start(r, first, nows), sched));
      }
    } else {
      var sched := TwoQuests(r, first, nows);
    }
  }

  lemma FewFresh(s: State)
    requires |s.calls| <= 1
    ensures |FreshCalls(s.calls)| <= 1
  {
    SubsetSize(FreshCalls(s.calls), {0});
  }
}
