/** The race phase of RunBookingRace: a serial prepare loop, one goroutine per
    prepared slot, a buffered channel, and a first-win cancel. Each label is one
    atomic action of one goroutine or of the environment, so a schedule is an
    interleaving. */
module BookingRace {
  import opened Counting
  import opened Options
  import opened Runs

  datatype Confirmation = Confirmation(id: string, bookedAt: int)

  /** One booking goroutine. */
  datatype Attempt =
    | NotStarted
    | Confirming                  // inside ConfirmSlot
    | Holding(conf: Confirmation) // ConfirmSlot returned; at the select
    | Sent(conf: Confirmation)    // delivered, cancel() still to come
    | Delivered(conf: Confirmation)
    | Dropped(conf: Confirmation) // left through raceCtx.Done
    | Errored

  predicate Succeeded(a: Attempt) { a.Holding? || a.Sent? || a.Delivered? || a.Dropped? }

  predicate InChannel(a: Attempt) { a.Sent? || a.Delivered? }

  predicate Ended(a: Attempt) { a.NotStarted? || a.Delivered? || a.Dropped? || a.Errored? }

  /** Where the goroutine running RunBookingRace stands; i is the slot index. */
  datatype Loop =
    | Checking(i: nat)
    | Preparing(i: nat)
    | Pausing(i: nat)
    | Waiting
    | Returned(winner: Option<Confirmation>)
    | Failing(i: nat)          // prepare_blocked: persisting Failed
    | ReturnedBlocked(i: nat)

  /** The channel carries pointers, so results lists the senders' indices. */
  datatype Race = Race(mayBlock: bool, loop: Loop, attempts: seq<Attempt>, results: seq<nat>,
                       parentDone: bool, raceDone: bool)
  {
    predicate Over() { loop.Returned? || loop.ReturnedBlocked? }

    ghost predicate Quiet() { forall k | 0 <= k < |attempts| :: Ended(attempts[k]) }

    ghost predicate AnySuccess() { exists k :: 0 <= k < |attempts| && Succeeded(attempts[k]) }
  }

  function Start(n: nat, mayBlock: bool): Race {
    Race(mayBlock, Checking(0), seq(n, _ => NotStarted), [], false, false)
  }

  datatype Label =
    | ParentCancel
    | LoopCheck
    | PrepareOk
    | PrepareFail
    | PrepareBlock
    | PauseOver
    | PauseCancelled
    | BlockReturn
    | WaitDone
    | ConfirmOk(k: nat, conf: Confirmation)
    | ConfirmErr(k: nat)
    | Send(k: nat)
    | CancelRace(k: nat)
    | Drop(k: nat)

  predicate Enabled(s: Race, l: Label) {
    match l
    case ParentCancel => !s.parentDone
    case LoopCheck => s.loop.Checking?
    case PrepareOk => s.loop.Preparing? && s.loop.i < |s.attempts|
    case PrepareFail => s.loop.Preparing?
    case PrepareBlock => s.loop.Preparing? && s.mayBlock
    case PauseOver => s.loop.Pausing?
    case PauseCancelled => s.loop.Pausing? && s.parentDone
    case BlockReturn => s.loop.Failing?
    case WaitDone => s.loop.Waiting? && forall k | 0 <= k < |s.attempts| :: Ended(s.attempts[k])
    case ConfirmOk(k, _) => k < |s.attempts| && s.attempts[k].Confirming?
    case ConfirmErr(k) => k < |s.attempts| && s.attempts[k].Confirming?
    case Send(k) => k < |s.attempts| && s.attempts[k].Holding? && |s.results| < |s.attempts|
    case CancelRace(k) => k < |s.attempts| && s.attempts[k].Sent?
    case Drop(k) => k < |s.attempts| && s.attempts[k].Holding? && s.raceDone
  }

  /** A receive from the closed channel: the oldest pointer, or nil. */
  function FirstResult(s: Race): Option<Confirmation> {
    if s.results != [] && s.results[0] < |s.attempts| && InChannel(s.attempts[s.results[0]])
    then Some(s.attempts[s.results[0]].conf)
    else None
  }

  function Apply(s: Race, l: Label): Race
    requires Enabled(s, l)
  {
    match l
    case ParentCancel => s.(parentDone := true)
    case LoopCheck =>
      if s.loop.i >= |s.attempts| || s.parentDone || s.raceDone then s.(loop := Waiting)
      else s.(loop := Preparing(s.loop.i))
    case PrepareOk =>
      var i := s.loop.i;
      s.(attempts := s.attempts[i := Confirming],
         loop := if i + 1 < |s.attempts| then Pausing(i) else Checking(i + 1))
    case PrepareFail => s.(loop := Checking(s.loop.i + 1))
    case PrepareBlock => s.(loop := Failing(s.loop.i))
    case PauseOver => s.(loop := Checking(s.loop.i + 1))
    case PauseCancelled => s.(loop := Waiting)
    case BlockReturn => s.(loop := ReturnedBlocked(s.loop.i), raceDone := true)
    case WaitDone =>
      s.(loop := Returned(FirstResult(s)), raceDone := true)
    case ConfirmOk(k, c) => s.(attempts := s.attempts[k := Holding(c)])
    case ConfirmErr(k) => s.(attempts := s.attempts[k := Errored])
    case Send(k) => s.(attempts := s.attempts[k := Sent(s.attempts[k].conf)], results := s.results + [k])
    case CancelRace(k) => s.(attempts := s.attempts[k := Delivered(s.attempts[k].conf)], raceDone := true)
    case Drop(k) => s.(attempts := s.attempts[k := Dropped(s.attempts[k].conf)])
  }

  function Next(s: Race, l: Label): Option<Race> { if Enabled(s, l) then Some(Apply(s, l)) else None }

  /** A schedule that the program can follow from s. */
  predicate Follows(s: Race, sched: seq<Label>) { CanRun(Next, s, sched) }

  function After(s: Race, sched: seq<Label>): Race
    requires Follows(s, sched)
  {
    Reached(Next, s, sched)
  }

  // ---- the invariant

  function Frontier(s: Race): nat {
    match s.loop
    case Checking(i) => i
    case Preparing(i) => i
    case Pausing(i) => i + 1
    case Failing(i) => i
    case ReturnedBlocked(i) => i
    case Waiting => |s.attempts|
    case Returned(_) => |s.attempts|
  }

  /** The prepare loop has touched only the slots before its frontier. */
  ghost predicate LoopInv(s: Race) {
    var n := |s.attempts|;
    && Frontier(s) <= n
    && (s.loop.Preparing? || s.loop.Failing? || s.loop.ReturnedBlocked? ==> s.loop.i < n)
    && (s.loop.Pausing? ==> s.loop.i + 1 < n)
    && (s.loop.Failing? || s.loop.ReturnedBlocked? ==> s.mayBlock)
    && (forall k | Frontier(s) <= k < n :: s.attempts[k].NotStarted?)
  }

  /** The channel holds exactly the senders, each once. */
  ghost predicate ChannelInv(s: Race) {
    && (forall j | 0 <= j < |s.results| :: s.results[j] < |s.attempts| && InChannel(s.attempts[s.results[j]]))
    && (forall i, j | 0 <= i < j < |s.results| :: s.results[i] != s.results[j])
    && (forall k | 0 <= k < |s.attempts| && InChannel(s.attempts[k]) :: k in s.results)
  }

  /** raceCtx is detached from the parent: until a return it is done only because a
      winner was delivered, so whoever leaves through it leaves a winner behind. */
  ghost predicate DoneInv(s: Race) {
    && (s.raceDone ==> s.Over() || s.results != [])
    && (!s.loop.ReturnedBlocked? ==> forall k | 0 <= k < |s.attempts| && s.attempts[k].Dropped? :: s.results != [])
    && (s.loop.Returned? ==> s.Quiet() && s.loop.winner == FirstResult(s))
  }

  ghost predicate Inv(s: Race) { LoopInv(s) && ChannelInv(s) && DoneInv(s) }

  lemma LoopInvKept(s: Race, l: Label)
    requires LoopInv(s) && Enabled(s, l)
    ensures LoopInv(Apply(s, l))
  {
  }

  /** The channel does not care what a goroutine does on either side of its send. */
  lemma ChannelUntouched(s: Race, t: Race)
    requires ChannelInv(s) && t.results == s.results && |t.attempts| == |s.attempts|
    requires forall k | 0 <= k < |s.attempts| :: InChannel(t.attempts[k]) == InChannel(s.attempts[k])
    ensures ChannelInv(t)
  {
  }

  lemma SendKeepsChannel(s: Race, k: nat)
    requires ChannelInv(s) && Enabled(s, Send(k))
    ensures ChannelInv(Apply(s, Send(k)))
  {
    var t := Apply(s, Send(k));
    assert t.results[|s.results|] == k;
    assert forall j | j in s.results :: j in t.results;
  }

  lemma ChannelInvKept(s: Race, l: Label)
    requires LoopInv(s) && ChannelInv(s) && Enabled(s, l)
    ensures ChannelInv(Apply(s, l))
  {
    hide ChannelInv;
    if l.Send? {
      SendKeepsChannel(s, l.k);
    } else {
      if l.PrepareOk? {
        assert s.attempts[s.loop.i].NotStarted?;
      }
      ChannelUntouched(s, Apply(s, l));
    }
  }

  lemma DoneInvKept(s: Race, l: Label)
    requires Inv(s) && Enabled(s, l)
    ensures DoneInv(Apply(s, l))
  {
    if l.CancelRace? {
      assert l.k in s.results;
    }
  }

  lemma StepKeepsInv(s: Race, l: Label)
    requires Inv(s) && Enabled(s, l)
    ensures Inv(Apply(s, l))
  {
    LoopInvKept(s, l);
    ChannelInvKept(s, l);
    DoneInvKept(s, l);
  }

  lemma {:induction false} RunKeepsInv(s: Race, sched: seq<Label>)
    requires Inv(s) && Follows(s, sched)
    ensures Inv(After(s, sched))
    ensures |After(s, sched).attempts| == |s.attempts| && After(s, sched).mayBlock == s.mayBlock
    decreases |sched|
  {
    if sched != [] {
      StepKeepsInv(s, sched[0]);
      RunKeepsInv(Apply(s, sched[0]), sched[1..]);
    }
  }

  // ---- no lost booking

  /** What a caller may rely on once RunBookingRace has returned: every goroutine
      has ended, and a booking is reported exactly when some ConfirmSlot succeeded. */
  ghost predicate NothingLost(s: Race) {
    s.Over() ==>
      && s.Quiet()
      && (s.AnySuccess() <==> s.loop.Returned? && s.loop.winner.Some?)
      && (s.loop.Returned? && s.loop.winner.Some? ==>
          exists k :: 0 <= k < |s.attempts| && Succeeded(s.attempts[k]) && s.attempts[k].conf == s.loop.winner.value)
  }

  lemma InvGivesNothingLost(s: Race)
    requires Inv(s) && s.loop.Returned?
    ensures NothingLost(s)
  {
    if s.AnySuccess() {
      var k :| 0 <= k < |s.attempts| && Succeeded(s.attempts[k]);
      assert InChannel(s.attempts[k]) || s.attempts[k].Dropped?;
    }
    if s.results != [] {
      assert InChannel(s.attempts[s.results[0]]);
      assert Succeeded(s.attempts[s.results[0]]);
    }
  }

  /** Every interleaving that passes wg.Wait keeps every booking. */
  lemma NoLostBooking(n: nat, mayBlock: bool, sched: seq<Label>)
    requires Follows(Start(n, mayBlock), sched)
    requires After(Start(n, mayBlock), sched).loop.Returned?
    ensures NothingLost(After(Start(n, mayBlock), sched))
  {
    RunKeepsInv(Start(n, mayBlock), sched);
    InvGivesNothingLost(After(Start(n, mayBlock), sched));
  }

  // ---- no send blocks

  /** A goroutine holding a confirmation always finds room in the channel. */
  lemma SendNeverBlocks(n: nat, mayBlock: bool, sched: seq<Label>, k: nat)
    requires Follows(Start(n, mayBlock), sched)
    requires k < |After(Start(n, mayBlock), sched).attempts| && After(Start(n, mayBlock), sched).attempts[k].Holding?
    ensures Enabled(After(Start(n, mayBlock), sched), Send(k))
  {
    RunKeepsInv(Start(n, mayBlock), sched);
    HoldingHasRoom(After(Start(n, mayBlock), sched), k);
  }

  lemma HoldingHasRoom(s: Race, k: nat)
    requires Inv(s) && k < |s.attempts| && s.attempts[k].Holding?
    ensures |s.results| < |s.attempts|
  {
    DistinctFits(s.results, Below(|s.attempts|) - {k});
  }

  // ---- every run ends

  function Weight(a: Attempt): nat {
    match a
    case NotStarted => 4
    case Confirming => 3
    case Holding(_) => 2
    case Sent(_) => 1
    case _ => 0
  }

  function Weights(xs: seq<Attempt>): nat {
    if xs == [] then 0 else Weight(xs[0]) + Weights(xs[1..])
  }

  function LoopWeight(s: Race): int {
    match s.loop
    case Checking(i) => 3 * (|s.attempts| - i) + 3
    case Preparing(i) => 3 * (|s.attempts| - i) + 2
    case Pausing(i) => 3 * (|s.attempts| - i) + 1
    case Waiting => 1
    case Failing(_) => 1
    case _ => 0
  }

  function Remaining(s: Race): int {
    (if s.parentDone then 0 else 1) + LoopWeight(s) + Weights(s.attempts)
  }

  lemma {:induction false} WeightsUpdate(xs: seq<Attempt>, k: nat, a: Attempt)
    requires k < |xs|
    ensures Weights(xs[k := a]) == Weights(xs) - Weight(xs[k]) + Weight(a)
  {
    if k == 0 {
      assert xs[k := a][1..] == xs[1..];
    } else {
      WeightsUpdate(xs[1..], k - 1, a);
      assert xs[k := a][1..] == xs[1..][k - 1 := a];
    }
  }

  /** The goroutine a label is about. */
  function Subject(s: Race, l: Label): nat
    requires Enabled(s, l)
  {
    match l
    case PrepareOk => s.loop.i
    case ConfirmOk(k, _) => k
    case ConfirmErr(k) => k
    case Send(k) => k
    case CancelRace(k) => k
    case Drop(k) => k
    case _ => 0
  }

  predicate MovesAttempt(l: Label) {
    l.PrepareOk? || l.ConfirmOk? || l.ConfirmErr? || l.Send? || l.CancelRace? || l.Drop?
  }

  lemma AttemptMoves(s: Race, l: Label)
    requires LoopInv(s) && Enabled(s, l) && MovesAttempt(l)
    ensures var t, k := Apply(s, l), Subject(s, l);
            && k < |s.attempts| && t.attempts == s.attempts[k := t.attempts[k]]
            && Weight(t.attempts[k]) < Weight(s.attempts[k])
            && t.parentDone == s.parentDone && LoopWeight(t) <= LoopWeight(s)
  {
    if l.PrepareOk? {
      assert s.attempts[s.loop.i].NotStarted?;
    }
  }

  lemma LoopMoves(s: Race, l: Label)
    requires LoopInv(s) && Enabled(s, l) && !MovesAttempt(l)
    ensures var t := Apply(s, l);
            t.attempts == s.attempts
            && LoopWeight(t) + (if t.parentDone then 0 else 1) < LoopWeight(s) + (if s.parentDone then 0 else 1)
  {
  }

  lemma LoopWeightSign(s: Race)
    requires LoopInv(s)
    ensures LoopWeight(s) >= 0
  {
  }

  lemma StepDecreases(s: Race, l: Label)
    requires LoopInv(s) && Enabled(s, l)
    ensures 0 <= Remaining(Apply(s, l)) < Remaining(s)
  {
    hide LoopInv, Apply, Weights, LoopWeight, Weight;
    LoopInvKept(s, l);
    LoopWeightSign(Apply(s, l));
    if MovesAttempt(l) {
      AttemptMoves(s, l);
      WeightsUpdate(s.attempts, Subject(s, l), Apply(s, l).attempts[Subject(s, l)]);
    } else {
      LoopMoves(s, l);
    }
  }

  lemma {:induction false} WeightsOfStart(xs: seq<Attempt>)
    requires forall k | 0 <= k < |xs| :: xs[k].NotStarted?
    ensures Weights(xs) == 4 * |xs|
  {
    if xs != [] {
      WeightsOfStart(xs[1..]);
    }
  }

  lemma {:induction false} RunBounded(s: Race, sched: seq<Label>)
    requires Inv(s) && Follows(s, sched)
    ensures |sched| + Remaining(After(s, sched)) <= Remaining(s)
    ensures Remaining(After(s, sched)) >= 0 || sched == []
    decreases |sched|
  {
    if sched != [] {
      StepDecreases(s, sched[0]);
      StepKeepsInv(s, sched[0]);
      RunBounded(Apply(s, sched[0]), sched[1..]);
    }
  }

  /** No schedule is longer than 7n + 4 actions, and one that has not finished can
      always go on without a cancellation: the race never deadlocks. */
  lemma EveryRaceEnds(n: nat, mayBlock: bool, sched: seq<Label>)
    requires Follows(Start(n, mayBlock), sched)
    ensures |sched| <= 7 * n + 4
    ensures var s := After(Start(n, mayBlock), sched);
            (s.Over() && s.Quiet()) || exists l :: l != ParentCancel && Enabled(s, l)
  {
    var s0 := Start(n, mayBlock);
    RunBounded(s0, sched);
    RunKeepsInv(s0, sched);
    WeightsOfStart(s0.attempts);
    var s := After(s0, sched);
    if !(s.Over() && s.Quiet()) {
      var l := Move(s);
    }
  }

  /** A label that can go next while the race has work left. */
  lemma Move(s: Race) returns (l: Label)
    requires Inv(s) && !(s.Over() && s.Quiet())
    ensures l != ParentCancel && Enabled(s, l)
  {
    if !s.Quiet() {
      var k :| 0 <= k < |s.attempts| && !Ended(s.attempts[k]);
      if s.attempts[k].Holding? {
        HoldingHasRoom(s, k);
      }
      return match s.attempts[k] case Confirming => ConfirmErr(k) case Holding(_) => Send(k) case _ => CancelRace(k);
    }
    return match s.loop
      case Checking(_) => LoopCheck
      case Preparing(_) => PrepareFail
      case Pausing(_) => PauseOver
      case Failing(_) => BlockReturn
      case _ => WaitDone;
  }

  // ---- prepare_blocked returns without wg.Wait

  /** Slot 0 is being booked when slot 1's details are refused: the race returns
      failure while ConfirmSlot holds a confirmation nobody will read. */
  lemma BlockedReturnLosesBooking(n: nat, c: Confirmation) returns (sched: seq<Label>)
    requires n >= 2
    ensures Follows(Start(n, true), sched)
    ensures After(Start(n, true), sched).loop.ReturnedBlocked? && After(Start(n, true), sched).AnySuccess()
  {
    var s0 := Start(n, true);
    var s1 := Apply(s0, LoopCheck);
    var s2 := Apply(s1, PrepareOk);
    var s3 := Apply(s2, PauseOver);
    var s4 := Apply(s3, LoopCheck);
    var s5 := Apply(s4, PrepareBlock);
    var s6 := Apply(s5, ConfirmOk(0, c));
    var s7 := Apply(s6, BlockReturn);
    sched := [BlockReturn];
    assert Follows(s6, sched) && After(s6, sched) == s7 by { assert sched[1..] == []; }
    Prepend(Next, s5, ConfirmOk(0, c), sched);
    Prepend(Next, s4, PrepareBlock, [ConfirmOk(0, c)] + sched);
    Prepend(Next, s3, LoopCheck, [PrepareBlock] + ([ConfirmOk(0, c)] + sched));
    Prepend(Next, s2, PauseOver, [LoopCheck] + ([PrepareBlock] + ([ConfirmOk(0, c)] + sched)));
    sched := [PauseOver] + ([LoopCheck] + ([PrepareBlock] + ([ConfirmOk(0, c)] + sched)));
    Prepend(Next, s1, PrepareOk, sched);
    Prepend(Next, s0, LoopCheck, [PrepareOk] + sched);
    sched := [LoopCheck] + ([PrepareOk] + sched);
    assert Succeeded(s7.attempts[0]);
  }

  /** Exactly when every interleaving keeps every booking: there is at most one slot
      to prepare, or the provider never answers a prepare with a block. */
  lemma NothingLostExactly(n: nat, mayBlock: bool)
    ensures (forall sched :: Follows(Start(n, mayBlock), sched) ==> NothingLost(After(Start(n, mayBlock), sched)))
       <==> (n <= 1 || !mayBlock)
  {
    if n <= 1 || !mayBlock {
      forall sched | Follows(Start(n, mayBlock), sched)
        ensures NothingLost(After(Start(n, mayBlock), sched))
      {
        RunKeepsInv(Start(n, mayBlock), sched);
        var s := After(Start(n, mayBlock), sched);
        if s.loop.Returned? {
          InvGivesNothingLost(s);
        }
      }
    } else {
      var sched := BlockedReturnLosesBooking(n, Confirmation("", 0));
    }
  }

  /** A booking that the provider made is one that the caller is told of. */
  ghost predicate BookingKept(s: Race) {
    s.Over() && s.AnySuccess() ==> s.loop.Returned? && s.loop.winner.Some?
  }

  /** The same for the bookings alone: without the condition some schedule makes a
      booking and reports a failure. */
  lemma NoBookingLostExactly(n: nat, mayBlock: bool)
    ensures (forall sched :: Follows(Start(n, mayBlock), sched) ==> BookingKept(After(Start(n, mayBlock), sched)))
       <==> (n <= 1 || !mayBlock)
  {
    if n <= 1 || !mayBlock {
      NothingLostExactly(n, mayBlock);
    } else {
      var sched := BlockedReturnLosesBooking(n, Confirmation("", 0));
    }
  }

  // ---- which slots are tried

  /** The answer to one prepare call. */
  datatype Prepared = Prepared(slot: nat, ok: bool)

  predicate IsPrepare(l: Label) { l.PrepareOk? || l.PrepareFail? || l.PrepareBlock? }

  function PreparedBy(s: Race, l: Label): seq<Prepared>
    requires Enabled(s, l)
  {
    if IsPrepare(l) then [Prepared(s.loop.i, l.PrepareOk?)] else []
  }

  /** The prepare calls of a schedule, in order. */
  function Prepares(s: Race, sched: seq<Label>): seq<Prepared>
    requires Follows(s, sched)
    decreases |sched|
  {
    if sched == [] then [] else PreparedBy(s, sched[0]) + Prepares(Apply(s, sched[0]), sched[1..])
  }

  /** These calls were one for each of the first slots, in rank order, and just the slots
      prepared by them are being confirmed or have been. */
  ghost predicate TriedInOrder(s: Race, calls: seq<Prepared>) {
    && |calls| <= |s.attempts|
    && (forall k | 0 <= k < |calls| :: calls[k].slot == k && (calls[k].ok <==> !s.attempts[k].NotStarted?))
    && forall k | |calls| <= k < |s.attempts| :: s.attempts[k].NotStarted?
  }

  /** The loop stops short of the last slot only for a cancellation or a delivered result. */
  ghost predicate TriedSoFar(s: Race, calls: seq<Prepared>) {
    match s.loop
    case Checking(i) => |calls| == i
    case Preparing(i) => |calls| == i
    case Pausing(i) => |calls| == i + 1
    case Failing(i) => |calls| == i + 1
    case ReturnedBlocked(i) => |calls| == i + 1
    case _ => |calls| == |s.attempts| || s.parentDone || s.results != []
  }

  lemma TriedStep(s: Race, calls: seq<Prepared>, l: Label)
    requires Inv(s) && TriedInOrder(s, calls) && TriedSoFar(s, calls) && Enabled(s, l)
    ensures TriedInOrder(Apply(s, l), calls + PreparedBy(s, l)) && TriedSoFar(Apply(s, l), calls + PreparedBy(s, l))
  {
    hide ChannelInv;
  }

  lemma {:induction false} TriedRun(s: Race, calls: seq<Prepared>, sched: seq<Label>)
    requires Inv(s) && TriedInOrder(s, calls) && TriedSoFar(s, calls) && Follows(s, sched)
    ensures TriedInOrder(After(s, sched), calls + Prepares(s, sched))
    ensures TriedSoFar(After(s, sched), calls + Prepares(s, sched))
    decreases |sched|
  {
    hide Inv, TriedInOrder, TriedSoFar, PreparedBy;
    if sched == [] {
      assert calls + [] == calls;
    } else {
      var l, rest := sched[0], Prepares(Apply(s, sched[0]), sched[1..]);
      TriedStep(s, calls, l);
      StepKeepsInv(s, l);
      TriedRun(Apply(s, l), calls + PreparedBy(s, l), sched[1..]);
      assert calls + (PreparedBy(s, l) + rest) == calls + PreparedBy(s, l) + rest;
    }
  }

  lemma {:induction false} ParentDoneIfCancelled(s: Race, sched: seq<Label>)
    requires Follows(s, sched)
    ensures After(s, sched).parentDone <==> s.parentDone || ParentCancel in sched
    decreases |sched|
  {
    if sched != [] {
      ParentDoneIfCancelled(Apply(s, sched[0]), sched[1..]);
      assert ParentCancel in sched <==> sched[0] == ParentCancel || ParentCancel in sched[1..];
    }
  }

  /** In every interleaving the slots are prepared in rank order, each at most once, and a slot
      is confirmed exactly when its prepare succeeded. A race that passes wg.Wait without a
      winner, and was not cancelled, has prepared every slot and failed to confirm each it could. */
  lemma EverySlotTried(n: nat, mayBlock: bool, sched: seq<Label>)
    requires Follows(Start(n, mayBlock), sched)
    ensures var s, calls := After(Start(n, mayBlock), sched), Prepares(Start(n, mayBlock), sched);
            && |s.attempts| == n && TriedInOrder(s, calls)
            && (s.loop.Returned? && s.loop.winner.None? && ParentCancel !in sched ==>
                  |calls| == n && forall k | 0 <= k < n && calls[k].ok :: s.attempts[k].Errored?)
  {
    hide Inv, Prepares, TriedInOrder, TriedSoFar, NothingLost;
    var s0 := Start(n, mayBlock);
    StartTried(n, mayBlock);
    TriedRun(s0, [], sched);
    assert [] + Prepares(s0, sched) == Prepares(s0, sched);
    RunKeepsInv(s0, sched);
    ParentDoneIfCancelled(s0, sched);
    if After(s0, sched).loop.Returned? {
      NoWinnerAllErrored(After(s0, sched), Prepares(s0, sched));
    }
  }

  lemma StartTried(n: nat, mayBlock: bool)
    ensures Inv(Start(n, mayBlock))
    ensures TriedInOrder(Start(n, mayBlock), []) && TriedSoFar(Start(n, mayBlock), [])
  {
  }

  lemma NoWinnerAllErrored(s: Race, calls: seq<Prepared>)
    requires Inv(s) && TriedInOrder(s, calls) && TriedSoFar(s, calls)
    requires s.loop.Returned?
    ensures s.loop.winner.None? && !s.parentDone ==>
            |calls| == |s.attempts| && forall k | 0 <= k < |calls| && calls[k].ok :: s.attempts[k].Errored?
  {
    InvGivesNothingLost(s);
    if s.loop.winner.None? && !s.parentDone {
      WinnerIsFirstResult(s);
      forall k | 0 <= k < |calls| && calls[k].ok ensures s.attempts[k].Errored? {
        assert Ended(s.attempts[k]) && !Succeeded(s.attempts[k]);
      }
    }
  }

  lemma {:induction false} DoneStopsLoop(s: Race, sched: seq<Label>)
    requires s.raceDone && Follows(s, sched)
    ensures |Prepares(s, sched)| <= if s.loop.Preparing? then 1 else 0
    decreases |sched|
  {
    if sched != [] {
      DoneStopsLoop(Apply(s, sched[0]), sched[1..]);
    }
  }

  /** Once the winner has cancelled the race no slot is prepared any more, but for the one whose
      prepare was under way, and whoever still holds a confirmation can leave. */
  lemma CancelStopsPreparing(n: nat, mayBlock: bool, before: seq<Label>, k: nat, after: seq<Label>)
    requires Follows(Start(n, mayBlock), before + [CancelRace(k)] + after)
    ensures Follows(Start(n, mayBlock), before + [CancelRace(k)])
    ensures var s := After(Start(n, mayBlock), before + [CancelRace(k)]);
            && Follows(s, after) && |Prepares(s, after)| <= (if s.loop.Preparing? then 1 else 0)
            && forall j | 0 <= j < |s.attempts| && s.attempts[j].Holding? :: Enabled(s, Drop(j))
  {
    var s0 := Start(n, mayBlock);
    Split(Next, s0, before + [CancelRace(k)], after);
    Split(Next, s0, before, [CancelRace(k)]);
    var s := After(s0, before);
    assert CanRun(Next, s, [CancelRace(k)]) && Reached(Next, s, [CancelRace(k)]) == Apply(s, CancelRace(k)) by {
      assert [CancelRace(k)][1..] == [];
    }
    DoneStopsLoop(Apply(s, CancelRace(k)), after);
  }

  // ---- which booking wins

  /** The goroutines that delivered, in order. */
  function Senders(sched: seq<Label>): seq<nat> {
    if sched == [] then [] else (if sched[0].Send? then [sched[0].k] else []) + Senders(sched[1..])
  }

  lemma {:induction false} ResultsAreSenders(s: Race, sched: seq<Label>)
    requires Follows(s, sched)
    ensures After(s, sched).results == s.results + Senders(sched)
    decreases |sched|
  {
    if sched != [] {
      var own := if sched[0].Send? then [sched[0].k] else [];
      assert Apply(s, sched[0]).results == s.results + own;
      ResultsAreSenders(Apply(s, sched[0]), sched[1..]);
      hide Apply, Next;
      assert s.results + own + Senders(sched[1..]) == s.results + (own + Senders(sched[1..]));
    }
  }

  /** The winner is the confirmation of the first goroutine to deliver. */
  lemma FirstSenderWins(n: nat, mayBlock: bool, sched: seq<Label>)
    requires Follows(Start(n, mayBlock), sched) && After(Start(n, mayBlock), sched).loop.Returned?
    ensures var s, senders := After(Start(n, mayBlock), sched), Senders(sched);
            && (senders == [] ==> s.loop.winner == None)
            && (senders != [] ==>
                  && senders[0] < |s.attempts| && s.attempts[senders[0]].Delivered?
                  && s.loop.winner == Some(s.attempts[senders[0]].conf))
  {
    hide Inv, Follows, After, Senders;
    var s0 := Start(n, mayBlock);
    StartTried(n, mayBlock);
    RunKeepsInv(s0, sched);
    ResultsAreSenders(s0, sched);
    assert [] + Senders(sched) == Senders(sched);
    WinnerIsFirstResult(After(s0, sched));
  }

  lemma WinnerIsFirstResult(s: Race)
    requires Inv(s) && s.loop.Returned?
    ensures s.results == [] ==> s.loop.winner == None
    ensures s.results != [] ==>
            && s.results[0] < |s.attempts| && s.attempts[s.results[0]].Delivered?
            && s.loop.winner == Some(s.attempts[s.results[0]].conf)
  {
    if s.results != [] {
      assert InChannel(s.attempts[s.results[0]]) && Ended(s.attempts[s.results[0]]);
    }
  }

  // ---- the phase as a program

  /** Run the race to its return under an arbitrary scheduler and provider, with its context
      cancelled at the start or not. */
  method RunRace(n: nat, mayBlock: bool, cancelled: bool) returns (end: Race, ghost sched: seq<Label>)
    ensures Follows(Start(n, mayBlock), sched) && end == After(Start(n, mayBlock), sched)
    ensures end.Over() && |end.attempts| == n
    ensures end.loop.Returned? || !mayBlock ==> NothingLost(end)
    ensures cancelled ==> sched != [] && sched[0] == ParentCancel
    ensures end.parentDone <==> ParentCancel in sched
  {
    StartTried(n, mayBlock);
    NoStep(Next, Start(n, mayBlock));
    end, sched := Start(n, mayBlock), [];
    if cancelled {
      OneStep(Next, end, ParentCancel);
      StepKeepsInv(end, ParentCancel);
      end, sched := Apply(end, ParentCancel), [ParentCancel];
    }
    hide Inv, CanRun, Reached, NothingLost;
    while !end.Over()
      invariant Follows(Start(n, mayBlock), sched) && end == After(Start(n, mayBlock), sched)
      invariant Inv(end) && end.mayBlock == mayBlock
      invariant cancelled ==> sched != [] && sched[0] == ParentCancel
      decreases Remaining(end)
    {
      var l := PickMove(end);
      Extend(Next, Start(n, mayBlock), sched, l);
      StepKeepsInv(end, l);
      StepDecreases(end, l);
      end, sched := Apply(end, l), sched + [l];
    }
    RunKeepsInv(Start(n, mayBlock), sched);
    ParentDoneIfCancelled(Start(n, mayBlock), sched);
    if end.loop.Returned? {
      InvGivesNothingLost(end);
    }
  }

  /** The scheduler: any enabled label may be chosen. */
  method PickMove(s: Race) returns (l: Label)
    requires Inv(s) && !s.Over()
    ensures Enabled(s, l)
  {
    ghost var m := Move(s);
    l :| Enabled(s, l);
  }

}
