/** waitAndFire: the release callback runs on the timer's goroutine while the caller
    selects on done and ctx.Done. Labels are atomic actions; a schedule interleaves them. */
module WaitAndFire {
  import opened Options
  import opened Runs

  datatype Timer = Armed | Fired | Stopped

  /** The AfterFunc callback; Closed means done has been closed. */
  datatype Callback = Idle | Entered | Releasing | Closed

  datatype Outcome = FireResult | ContextError

  datatype Caller = Selecting | SawCancel | AwaitingDone | Returned(outcome: Outcome)

  /** keepsContract tells a Timer whose Stop follows clock.Timer from the fake one,
      whose Stop answers true even after the event fired. */
  datatype State = State(keepsContract: bool, timer: Timer, callback: Callback, caller: Caller,
                         cancelled: bool, releases: nat)

  function Start(keepsContract: bool): State {
    State(keepsContract, Armed, Idle, Selecting, false, 0)
  }

  datatype Label =
    | Cancel         // the context is cancelled
    | Fire           // the deadline passes: the callback starts
    | CheckContext   // the callback's ctx.Err() test
    | Release        // fireRelease returns and done is closed
    | TakeDone       // the select sees done
    | TakeCancel     // the select sees ctx.Done
    | CallStop       // timer.Stop()
    | TakeDoneLate   // <-done after Stop answered false

  predicate Enabled(s: State, l: Label) {
    match l
    case Cancel => !s.cancelled
    case Fire => s.timer.Armed?
    case CheckContext => s.callback.Entered?
    case Release => s.callback.Releasing?
    case TakeDone => s.caller.Selecting? && s.callback.Closed?
    case TakeCancel => s.caller.Selecting? && s.cancelled
    case CallStop => s.caller.SawCancel?
    case TakeDoneLate => s.caller.AwaitingDone? && s.callback.Closed?
  }

  /** What timer.Stop() answers. */
  predicate StopAnswer(s: State) { s.timer.Armed? || (s.timer.Fired? && !s.keepsContract) }

  function Apply(s: State, l: Label): State
    requires Enabled(s, l)
  {
    match l
    case Cancel => s.(cancelled := true)
    case Fire => s.(timer := Fired, callback := Entered)
    case CheckContext => if s.cancelled then s.(callback := Closed) else s.(callback := Releasing)
    case Release => s.(callback := Closed, releases := s.releases + 1)
    case TakeDone => s.(caller := Returned(FireResult))
    case TakeCancel => s.(caller := SawCancel)
    case CallStop =>
      var stopped := if s.timer.Armed? then s.(timer := Stopped) else s;
      stopped.(caller := if StopAnswer(s) then Returned(ContextError) else AwaitingDone)
    case TakeDoneLate => s.(caller := Returned(ContextError))
  }

  function Next(s: State, l: Label): Option<State> { if Enabled(s, l) then Some(Apply(s, l)) else None }

  predicate Follows(s: State, sched: seq<Label>) { CanRun(Next, s, sched) }

  function After(s: State, sched: seq<Label>): State
    requires Follows(s, sched)
  {
    Reached(Next, s, sched)
  }

  predicate Inv(s: State) {
    && (s.timer.Fired? <==> !s.callback.Idle?)
    && (s.timer.Stopped? ==> s.caller == Returned(ContextError))
    && (s.caller.SawCancel? || s.caller.AwaitingDone? || s.caller == Returned(ContextError) ==> s.cancelled)
    && (s.caller.AwaitingDone? ==> s.timer.Fired?)
    && (s.caller == Returned(FireResult) ==> s.callback.Closed?)
    && s.releases <= (if s.callback.Closed? then 1 else 0)
    && (s.keepsContract && s.caller == Returned(ContextError) ==> s.timer.Stopped? || s.callback.Closed?)
  }

  lemma {:induction false} RunKeepsInv(s: State, sched: seq<Label>)
    requires Inv(s) && Follows(s, sched)
    ensures Inv(After(s, sched)) && After(s, sched).keepsContract == s.keepsContract
    decreases |sched|
  {
    if sched != [] {
      RunKeepsInv(Apply(s, sched[0]), sched[1..]);
    }
  }

  /** The callback has ended, or it will never start. */
  predicate CallbackSettled(s: State) { s.callback.Closed? || (s.callback.Idle? && s.timer.Stopped?) }

  /** In every interleaving: at most one release; and once the caller is back the callback
      is settled and no action of the timer or the callback can follow. */
  lemma ReleaseAtMostOnce(sched: seq<Label>)
    requires Follows(Start(true), sched)
    ensures After(Start(true), sched).releases <= 1
    ensures After(Start(true), sched).caller.Returned? ==>
            && CallbackSettled(After(Start(true), sched))
            && forall l :: Enabled(After(Start(true), sched), l) ==> l.Cancel?
  {
    RunKeepsInv(Start(true), sched);
    var s := After(Start(true), sched);
    assert s.caller.Returned? ==> s.caller.outcome == FireResult || s.caller.outcome == ContextError;
  }

  /** A settled callback stays as it is whatever happens next: nothing leaks out of Run. */
  lemma {:induction false} SettledForever(s: State, sched: seq<Label>)
    requires Follows(s, sched) && CallbackSettled(s) && Inv(s)
    ensures After(s, sched).callback == s.callback && After(s, sched).releases == s.releases
    decreases |sched|
  {
    if sched != [] {
      SettledForever(Apply(s, sched[0]), sched[1..]);
    }
  }

  /** A context cancelled before the callback looks at it means no release at all, and
      one that is not means the release is made. */
  lemma CancelBeforeCheckPreventsRelease(keepsContract: bool, before: seq<Label>, after: seq<Label>)
    requires Follows(Start(keepsContract), before + [CheckContext] + after)
    ensures Cancel in before ==> After(Start(keepsContract), before + [CheckContext] + after).releases == 0
    ensures Cancel !in before && After(Start(keepsContract), before + [CheckContext] + after).callback.Closed?
        ==> After(Start(keepsContract), before + [CheckContext] + after).releases == 1
  {
    var s0 := Start(keepsContract);
    assert before + ([CheckContext] + after) == before + [CheckContext] + after;
    Split(Next, s0, before, [CheckContext] + after);
    var s := After(s0, before);
    RunKeepsInv(s0, before);
    CancelledIffSeen(s0, before);
    UncheckedNotReleased(s0, before);
    assert ([CheckContext] + after)[1..] == after;
    CheckedRun(Apply(s, CheckContext), after);
  }

  lemma {:induction false} CancelledIffSeen(s: State, sched: seq<Label>)
    requires Follows(s, sched)
    ensures After(s, sched).cancelled <==> s.cancelled || Cancel in sched
    decreases |sched|
  {
    if sched != [] {
      CancelledIffSeen(Apply(s, sched[0]), sched[1..]);
      assert Cancel in sched <==> sched[0] == Cancel || Cancel in sched[1..];
    }
  }

  /** While the callback is still before its check, nothing has been released. */
  lemma UncheckedNotReleased(s: State, sched: seq<Label>)
    requires Inv(s) && Follows(s, sched)
    ensures After(s, sched).callback.Entered? ==> After(s, sched).releases == 0
  {
    RunKeepsInv(s, sched);
  }

  lemma {:induction false} CheckedRun(s: State, sched: seq<Label>)
    requires Follows(s, sched) && !s.timer.Armed?
    requires s.callback.Closed? || s.callback.Releasing?
    ensures After(s, sched).releases ==
            s.releases + if s.callback.Releasing? && After(s, sched).callback.Closed? then 1 else 0
    ensures s.callback.Closed? ==> After(s, sched).callback.Closed?
    decreases |sched|
  {
    if sched != [] {
      CheckedRun(Apply(s, sched[0]), sched[1..]);
    }
  }

  /** Every run is short, and until the caller is back some action other than a
      cancellation can go next: waitAndFire always returns. */
  lemma AlwaysReturns(keepsContract: bool, sched: seq<Label>)
    requires Follows(Start(keepsContract), sched)
    ensures |sched| <= 7
    ensures After(Start(keepsContract), sched).caller.Returned?
         || exists l :: l != Cancel && Enabled(After(Start(keepsContract), sched), l)
  {
    var s0 := Start(keepsContract);
    RunKeepsInv(s0, sched);
    RunBounded(s0, sched);
    var s := After(s0, sched);
    assert !s.caller.Returned? ==>
      Enabled(s, Fire) || Enabled(s, CheckContext) || Enabled(s, Release) || Enabled(s, TakeDone)
      || Enabled(s, CallStop) || Enabled(s, TakeDoneLate);
  }

  function Remaining(s: State): nat {
    (if s.cancelled then 0 else 1)
    + (match s.callback
       case Idle => (if s.timer.Armed? then 3 else 0) case Entered => 2 case Releasing => 1 case Closed => 0)
    + (match s.caller case Selecting => 3 case SawCancel => 2 case AwaitingDone => 1 case Returned(_) => 0)
  }

  lemma {:induction false} RunBounded(s: State, sched: seq<Label>)
    requires Inv(s) && Follows(s, sched)
    ensures |sched| + Remaining(After(s, sched)) <= Remaining(s)
    decreases |sched|
  {
    if sched != [] {
      assert Inv(Apply(s, sched[0]));
      assert Remaining(Apply(s, sched[0])) < Remaining(s);
      RunBounded(Apply(s, sched[0]), sched[1..]);
    }
  }

  /** The guarantee rests on Stop answering false once the callback has started. Under
      the fake clock's Stop the caller can be back while the release is still running. */
  lemma SettledExactlyUnderContract(keepsContract: bool)
    ensures keepsContract <==>
            forall sched :: Follows(Start(keepsContract), sched) && After(Start(keepsContract), sched).caller.Returned?
                        ==> CallbackSettled(After(Start(keepsContract), sched))
  {
    if keepsContract {
      forall sched | Follows(Start(true), sched) && After(Start(true), sched).caller.Returned?
        ensures CallbackSettled(After(Start(true), sched))
      {
        ReleaseAtMostOnce(sched);
      }
    } else {
      var s0 := Start(false);
      var s1 := Apply(s0, Fire);
      var s2 := Apply(s1, CheckContext);
      var s3 := Apply(s2, Cancel);
      var s4 := Apply(s3, TakeCancel);
      var s5 := Apply(s4, CallStop);
      assert Follows(s5, []) && After(s5, []) == s5;
      Prepend(Next, s4, CallStop, []);
      Prepend(Next, s3, TakeCancel, [CallStop] + []);
      Prepend(Next, s2, Cancel, [TakeCancel] + ([CallStop] + []));
      var late := [Cancel] + ([TakeCancel] + ([CallStop] + []));
      Prepend(Next, s1, CheckContext, late);
      Prepend(Next, s0, Fire, [CheckContext] + late);
      assert Follows(s0, [Fire] + ([CheckContext] + late));
      assert s5.caller.Returned? && !CallbackSettled(s5);
    }
  }

  // Runs of a program that keeps the contract, by how they end

  /** A run of the machine, as seen when the caller is back. */
  ghost predicate IsRun(sched: seq<Label>, releases: nat, outcome: Outcome) {
    && Follows(Start(true), sched)
    && After(Start(true), sched).caller == Returned(outcome) && After(Start(true), sched).releases == releases
  }

  ghost predicate Ran(sched: seq<Label>, releases: nat) {
    IsRun(sched, releases, FireResult) || IsRun(sched, releases, ContextError)
  }

  lemma RunHasOutcome(sched: seq<Label>, releases: nat, outcome: Outcome)
    requires IsRun(sched, releases, outcome)
    ensures Ran(sched, releases)
  {
    assert outcome == FireResult || outcome == ContextError;
  }

  lemma Then(sched: seq<Label>, s: State, l: Label) returns (longer: seq<Label>, t: State)
    requires Follows(Start(true), sched) && After(Start(true), sched) == s && Enabled(s, l)
    ensures longer == sched + [l] && t == Apply(s, l)
    ensures Follows(Start(true), longer) && After(Start(true), longer) == t
  {
    Extend(Next, Start(true), sched, l);
    longer, t := sched + [l], Apply(s, l);
  }

  lemma NoAction()
    ensures Follows(Start(true), []) && After(Start(true), []) == Start(true)
  {
  }

  /** Cancelled before the timer fired: it is stopped. */
  lemma StoppedRun() returns (sched: seq<Label>)
    ensures IsRun(sched, 0, ContextError) && sched != [] && sched[0] == Cancel
  {
    hide CanRun, Reached;
    NoAction();
    var s;
    sched, s := Then([], Start(true), Cancel);
    sched, s := Then(sched, s, TakeCancel);
    sched, s := Then(sched, s, CallStop);
  }

  /** Cancelled before the callback's check: the callback ends at once, and the caller sees
      either done or the cancellation. */
  lemma SkippedRun(early: bool, viaDone: bool) returns (sched: seq<Label>)
    ensures IsRun(sched, 0, if viaDone then FireResult else ContextError) && Cancel in sched
    ensures early ==> sched[0] == Cancel
  {
    hide CanRun, Reached;
    NoAction();
    var s;
    if early {
      sched, s := Then([], Start(true), Cancel);
      sched, s := Then(sched, s, Fire);
    } else {
      sched, s := Then([], Start(true), Fire);
      sched, s := Then(sched, s, Cancel);
    }
    sched, s := Then(sched, s, CheckContext);
    if viaDone {
      sched, s := Then(sched, s, TakeDone);
    } else {
      sched, s := Then(sched, s, TakeCancel);
      sched, s := Then(sched, s, CallStop);
      sched, s := Then(sched, s, TakeDoneLate);
    }
  }

  /** Not cancelled by the callback's check: the release runs once, and a cancellation during
      it may still be what the caller reports. */
  lemma ReleasedRun(late: bool, viaDone: bool) returns (sched: seq<Label>)
    requires !viaDone ==> late
    ensures IsRun(sched, 1, if viaDone then FireResult else ContextError) && (Cancel in sched <==> late)
    ensures sched[0] == Fire
  {
    hide CanRun, Reached;
    NoAction();
    var s;
    sched, s := Then([], Start(true), Fire);
    sched, s := Then(sched, s, CheckContext);
    if late {
      sched, s := Then(sched, s, Cancel);
    }
    sched, s := Then(sched, s, Release);
    if viaDone {
      sched, s := Then(sched, s, TakeDone);
    } else {
      sched, s := Then(sched, s, TakeCancel);
      sched, s := Then(sched, s, CallStop);
      sched, s := Then(sched, s, TakeDoneLate);
    }
  }

  // What a cancelled caller is told

  lemma {:induction false} FiredIfSeen(s: State, sched: seq<Label>)
    requires Follows(s, sched)
    ensures After(s, sched).timer.Fired? ==> s.timer.Fired? || Fire in sched
    decreases |sched|
  {
    if sched != [] {
      FiredIfSeen(Apply(s, sched[0]), sched[1..]);
      assert Fire in sched <==> sched[0] == Fire || Fire in sched[1..];
    }
  }

  /** A finished run in which the timer never fired was cancelled, reports it and released nothing. */
  lemma UnfiredReportsCancel(sched: seq<Label>)
    requires Follows(Start(true), sched) && After(Start(true), sched).caller.Returned? && Fire !in sched
    ensures IsRun(sched, 0, ContextError) && Cancel in sched
  {
    RunKeepsInv(Start(true), sched);
    FiredIfSeen(Start(true), sched);
    CancelledIffSeen(Start(true), sched);
    var s := After(Start(true), sched);
    assert s.caller.outcome == FireResult || s.caller.outcome == ContextError;
  }

  /** Every finished run with a cancellation, which in early runs is the first action, reports
      the cancellation; the timer may fire in it or not. */
  ghost predicate CancelReported(early: bool, mayFire: bool) {
    forall sched ::
      && Follows(Start(true), sched) && After(Start(true), sched).caller.Returned?
      && Cancel in sched && (early ==> sched[0] == Cancel) && (Fire in sched ==> mayFire)
      ==> After(Start(true), sched).caller.outcome == ContextError
  }

  /** Run promises ctx.Err() to a caller who cancels before the scheduled time. Even of a
      cancellation before everything else that is true exactly when the timer never fires
      afterwards: otherwise done can be what the select sees, and Run returns nil. */
  lemma CancelReportedExactly(early: bool, mayFire: bool)
    ensures CancelReported(early, mayFire) <==> !mayFire
  {
    if mayFire {
      var sched := SkippedRun(true, true);
      assert Follows(Start(true), sched) && After(Start(true), sched).caller == Returned(FireResult);
    } else {
      forall sched | Follows(Start(true), sched) && After(Start(true), sched).caller.Returned? && Fire !in sched
        ensures After(Start(true), sched).caller.outcome == ContextError
      {
        UnfiredReportsCancel(sched);
      }
    }
  }
}
