/** SubscribeQuest: the stored history, then live notifications through a bounded buffer.
    Labels are the atomic actions of the pump, the engine's emitter and the client. */
module QuestStream {
  import opened Counting
  import opened Options
  import opened Runs
  import opened Sorting
  import Lifecycle
  import SnipeEvents = Engine

  type Event = SnipeEvents.Event

  /** isTerminalEvent: where the pump stops. */
  predicate IsTerminalEvent(e: Event) {
    match e.kind
    case EventBooked => true
    case EventFailed => true
    case EventCanceled => true
    case EventExpired => true
    case _ => false
  }

  /** The event records a status that no other can follow. */
  ghost predicate EndsQuest(e: Event) {
    exists s :: SnipeEvents.Records(e.kind, s) && forall to :: !Lifecycle.CanTransition(s, to)
  }

  /** The pump stops at just the events after which the snipe can change no more. */
  lemma TerminalEventExactly(e: Event)
    ensures IsTerminalEvent(e) <==> EndsQuest(e)
    ensures forall s | SnipeEvents.Records(e.kind, s) :: IsTerminalEvent(e) <==> Lifecycle.IsTerminal(s)
  {
    if IsTerminalEvent(e) {
      var s := match e.kind
        case EventBooked => Lifecycle.Booked
        case EventFailed => Lifecycle.Failed
        case EventCanceled => Lifecycle.Canceled
        case _ => Lifecycle.Expired;
      Lifecycle.TerminalExactly(s);
      assert SnipeEvents.Records(e.kind, s);
    }
    if EndsQuest(e) {
      var s :| SnipeEvents.Records(e.kind, s) && forall to :: !Lifecycle.CanTransition(s, to);
      Lifecycle.TerminalExactly(s);
    }
  }

  const BUFFER: nat := 64

  datatype Phase = Replaying | Pumping | Returned

  /** closed is the quest's status at the gate, and calledOff that CancelQuest has ended it since.
      missed are the quest's notifications from when the history was read until the call
      subscribed, emitted the later ones; accepted holds the positions in emitted of those that
      found room, and taken of these have been pumped. */
  datatype State = State(
    quest: string, history: seq<Event>, closed: bool, calledOff: bool, cancelled: bool, phase: Phase, replayed: nat,
    delivered: seq<Event>, live: seq<Event>, missed: seq<Event>, emitted: seq<Event>, accepted: seq<nat>, taken: nat)

  function Start(quest: string, history: seq<Event>, closed: bool): State {
    State(quest, history, closed, false, false, Replaying, 0, [], [], [], [], [], 0)
  }

  datatype Label =
    | Cancel                         // the client goes away
    | Replay                         // one turn of the history loop
    | Register                       // engine.Subscribe, or the return of a closed quest
    | Emit(snipe: string, e: Event)  // the engine emits, to the subscriber if there is one
    | CallOff                        // CancelQuest: a terminal row, and nobody is notified
    | Receive                        // the pump takes an event
    | SeeCancel                      // the pump takes ctx.Done

  predicate Enabled(s: State, l: Label) {
    match l
    case Cancel => true
    case Replay => s.phase == Replaying && s.replayed < |s.history|
    case Register => s.phase == Replaying && s.replayed >= |s.history|
    case Emit(_, _) => true
    case CallOff => true
    case Receive => s.phase == Pumping && s.live != []
    case SeeCancel => s.phase == Pumping && s.cancelled
  }

  function Apply(s: State, l: Label): State
    requires Enabled(s, l)
  {
    match l
    case Cancel => s.(cancelled := true)
    case Replay =>
      if s.cancelled then s.(phase := Returned)
      else s.(delivered := s.delivered + [s.history[s.replayed]], replayed := s.replayed + 1)
    case Register => s.(phase := if s.closed then Returned else Pumping)
    case Emit(snipe, e) =>
      if s.phase == Returned || snipe != s.quest then s
      else if s.phase == Replaying then s.(missed := s.missed + [e])
      else if |s.live| < BUFFER then
        s.(live := s.live + [e], emitted := s.emitted + [e], accepted := s.accepted + [|s.emitted|])
      else s.(emitted := s.emitted + [e])
    case CallOff => if s.closed then s else s.(calledOff := true)
    case Receive =>
      var e := s.live[0];
      s.(live := s.live[1..], delivered := s.delivered + [e], taken := s.taken + 1,
         phase := if IsTerminalEvent(e) then Returned else Pumping)
    case SeeCancel => s.(phase := Returned)
  }

  function Next(s: State, l: Label): Option<State> { if Enabled(s, l) then Some(Apply(s, l)) else None }

  predicate Follows(s: State, sched: seq<Label>) { CanRun(Next, s, sched) }

  function After(s: State, sched: seq<Label>): State
    requires Follows(s, sched)
  {
    Reached(Next, s, sched)
  }

  predicate Ascending(a: seq<nat>, bound: nat) {
    (forall i | 0 <= i < |a| :: a[i] < bound) && forall i, j | 0 <= i < j < |a| :: a[i] < a[j]
  }

  /** The events at these positions. */
  function Pick(events: seq<Event>, at: seq<nat>): seq<Event>
    requires forall i | 0 <= i < |at| :: at[i] < |events|
  {
    seq(|at|, i requires 0 <= i < |at| => events[at[i]])
  }

  ghost predicate Inv(s: State) {
    && s.replayed <= |s.history| && s.taken <= |s.accepted|
    && Ascending(s.accepted, |s.emitted|)
    && (s.phase == Replaying ==> s.emitted == [] && s.accepted == [])
    && (s.emitted != [] || s.phase == Pumping ==> s.replayed == |s.history| && !s.closed)
    && s.delivered == s.history[..s.replayed] + Pick(s.emitted, s.accepted)[..s.taken]
    && s.live == Pick(s.emitted, s.accepted)[s.taken..] && |s.live| <= BUFFER
    && (|s.emitted| > |s.accepted| ==> |s.accepted| >= BUFFER)
    && EndsAtTerminal(s)
  }

  /** Only the last event pumped can be terminal, and then the call has returned; a call
      returns for one of three reasons. */
  ghost predicate EndsAtTerminal(s: State)
    requires s.taken <= |s.accepted| && forall i | 0 <= i < |s.accepted| :: s.accepted[i] < |s.emitted|
  {
    && (forall i | 0 <= i < s.taken && EndsQuest(s.emitted[s.accepted[i]]) ::
          i == s.taken - 1 && s.phase == Returned)
    && (s.phase == Returned ==>
          || s.cancelled
          || (s.closed && s.replayed == |s.history|)
          || (s.taken > 0 && EndsQuest(s.emitted[s.accepted[s.taken - 1]])))
  }

  lemma PickExtends(events: seq<Event>, at: seq<nat>, e: Event)
    requires forall i | 0 <= i < |at| :: at[i] < |events|
    ensures Pick(events + [e], at) == Pick(events, at)
    ensures Pick(events + [e], at + [|events|]) == Pick(events, at) + [e]
  {
  }

  lemma AscendingExtends(a: seq<nat>, n: nat)
    requires Ascending(a, n)
    ensures Ascending(a, n + 1) && Ascending(a + [n], n + 1)
  {
  }

  lemma EndsStay(s: State, e: Event, accepted: seq<nat>)
    requires Inv(s) && (accepted == s.accepted || accepted == s.accepted + [|s.emitted|])
    ensures Ascending(accepted, |s.emitted| + 1) && s.taken <= |accepted|
    ensures EndsAtTerminal(s.(emitted := s.emitted + [e], accepted := accepted))
  {
    AscendingExtends(s.accepted, |s.emitted|);
    var t := s.(emitted := s.emitted + [e], accepted := accepted);
    assert forall i | 0 <= i < s.taken :: t.emitted[t.accepted[i]] == s.emitted[s.accepted[i]];
  }

  lemma EmitKeepsInv(s: State, l: Label)
    requires Inv(s) && l.Emit?
    ensures Inv(Apply(s, l))
  {
    hide Ascending, EndsAtTerminal, Pick;
    var t := Apply(s, l);
    if s.phase == Replaying {
      AcceptedInRange(s.accepted, |s.emitted|);
      EndsIgnoreMissed(s, t.missed);
    } else if t != s {
      AcceptedInRange(s.accepted, |s.emitted|);
      EndsStay(s, l.e, t.accepted);
      PickExtends(s.emitted, s.accepted, l.e);
      AcceptedInRange(t.accepted, |t.emitted|);
      EndsIgnoreLive(s.(emitted := t.emitted, accepted := t.accepted), t.live);
      PickLength(s.emitted, s.accepted);
      var p := Pick(s.emitted, s.accepted);
      assert (p + [l.e])[..s.taken] == p[..s.taken] && (p + [l.e])[s.taken..] == p[s.taken..] + [l.e];
    }
  }

  lemma AcceptedInRange(a: seq<nat>, n: nat)
    requires Ascending(a, n)
    ensures forall i | 0 <= i < |a| :: a[i] < n
  {
  }

  lemma PickLength(events: seq<Event>, at: seq<nat>)
    requires forall i | 0 <= i < |at| :: at[i] < |events|
    ensures |Pick(events, at)| == |at|
  {
  }

  lemma EndsIgnoreLive(s: State, live: seq<Event>)
    requires s.taken <= |s.accepted| && (forall i | 0 <= i < |s.accepted| :: s.accepted[i] < |s.emitted|)
    ensures EndsAtTerminal(s.(live := live)) == EndsAtTerminal(s)
  {
  }

  lemma EndsIgnoreMissed(s: State, missed: seq<Event>)
    requires s.taken <= |s.accepted| && (forall i | 0 <= i < |s.accepted| :: s.accepted[i] < |s.emitted|)
    ensures EndsAtTerminal(s.(missed := missed)) == EndsAtTerminal(s)
  {
  }

  lemma ReceiveKeepsInv(s: State)
    requires Inv(s) && Enabled(s, Receive)
    ensures Inv(Apply(s, Receive))
  {
    TerminalEventExactly(s.live[0]);
    hide EndsQuest, IsTerminalEvent;
    var p := Pick(s.emitted, s.accepted);
    assert p[s.taken..][1..] == p[s.taken + 1..] && p[s.taken..][0] == p[s.taken];
    assert p[..s.taken + 1] == p[..s.taken] + [p[s.taken]];
  }

  lemma StepKeepsInv(s: State, l: Label)
    requires Inv(s) && Enabled(s, l)
    ensures Inv(Apply(s, l))
  {
    match l
    case Emit(_, _) => EmitKeepsInv(s, l);
    case Receive => ReceiveKeepsInv(s);
    case Replay =>
      assert Pick(s.emitted, s.accepted) == [];
      assert s.history[..s.replayed + 1] == s.history[..s.replayed] + [s.history[s.replayed]] by {
        assert s.replayed < |s.history|;
      }
    case _ =>
  }

  lemma {:induction false} RunKeepsInv(s: State, sched: seq<Label>)
    requires Inv(s) && Follows(s, sched)
    ensures Inv(After(s, sched))
    ensures After(s, sched).history == s.history && After(s, sched).quest == s.quest
    ensures After(s, sched).closed == s.closed
    decreases |sched|
  {
    hide Inv;
    if sched != [] {
      StepKeepsInv(s, sched[0]);
      RunKeepsInv(Apply(s, sched[0]), sched[1..]);
    }
  }

  lemma InvHolds(quest: string, history: seq<Event>, closed: bool, sched: seq<Label>)
    requires Follows(Start(quest, history, closed), sched)
    ensures Inv(After(Start(quest, history, closed), sched))
    ensures After(Start(quest, history, closed), sched).history == history
    ensures After(Start(quest, history, closed), sched).closed == closed
  {
    assert Inv(Start(quest, history, closed));
    RunKeepsInv(Start(quest, history, closed), sched);
  }

  /** In every interleaving the callback saw a prefix of the history and then, only once the
      whole history was delivered, a prefix of an order-preserving selection of what the quest
      emitted since it subscribed. */
  lemma ReplayThenLive(quest: string, history: seq<Event>, closed: bool, sched: seq<Label>)
    returns (selection: seq<nat>)
    requires Follows(Start(quest, history, closed), sched)
    ensures var s := After(Start(quest, history, closed), sched);
            && Ascending(selection, |s.emitted|) && s.taken <= |selection| && s.replayed <= |history|
            && s.delivered == history[..s.replayed] + Pick(s.emitted, selection)[..s.taken]
            && (s.taken > 0 ==> s.replayed == |history|)
            && s.live == Pick(s.emitted, selection)[s.taken..]
  {
    InvHolds(quest, history, closed, sched);
    selection := After(Start(quest, history, closed), sched).accepted;
  }

  /** What the callback saw after the history. */
  ghost predicate Stops(s: State) {
    && (forall i | |s.history| <= i < |s.delivered| - 1 :: !EndsQuest(s.delivered[i]))
    && (|s.delivered| > |s.history| && EndsQuest(s.delivered[|s.delivered| - 1]) ==> s.phase == Returned)
    && (s.phase == Returned ==>
          || s.cancelled || (s.closed && s.delivered == s.history)
          || (|s.delivered| > |s.history| && EndsQuest(s.delivered[|s.delivered| - 1])))
  }

  lemma InvStops(s: State)
    requires Inv(s)
    ensures Stops(s)
  {
    forall i | |s.history| <= i < |s.delivered|
      ensures 0 <= i - |s.history| < s.taken && s.delivered[i] == s.emitted[s.accepted[i - |s.history|]]
    {
      assert s.delivered[i] == Pick(s.emitted, s.accepted)[..s.taken][i - s.replayed];
    }
    if s.taken > 0 {
      assert |s.delivered| == |s.history| + s.taken;
    }
  }

  /** Live delivery stops at the first terminal event, and the call ends only when the client
      left, the quest was closed and its history is out, or a terminal event was delivered. */
  lemma StopsAtFirstTerminal(quest: string, history: seq<Event>, closed: bool, sched: seq<Label>)
    requires Follows(Start(quest, history, closed), sched)
    ensures Stops(After(Start(quest, history, closed), sched))
    ensures After(Start(quest, history, closed), sched).history == history
    ensures After(Start(quest, history, closed), sched).closed == closed
  {
    hide Inv, Stops;
    InvHolds(quest, history, closed, sched);
    InvStops(After(Start(quest, history, closed), sched));
  }

  /** Positions of emitted that were dropped. */
  ghost function Dropped(s: State): set<int> {
    set i | i in Below(|s.emitted|) && i !in s.accepted
  }

  /** Every emission is accepted or dropped, and nothing is dropped before the buffer has
      been full: the first 64 of a quest's notifications always get through to it. */
  lemma EmittedIsAcceptedPlusDropped(quest: string, history: seq<Event>, closed: bool, sched: seq<Label>)
    requires Follows(Start(quest, history, closed), sched)
    ensures var s := After(Start(quest, history, closed), sched);
            && |s.emitted| == |s.accepted| + |Dropped(s)|
            && (|s.emitted| <= BUFFER ==> Dropped(s) == {})
  {
    InvHolds(quest, history, closed, sched);
    var s := After(Start(quest, history, closed), sched);
    NamedAndLeftOut(s.accepted, |s.emitted|);
    if |s.emitted| <= BUFFER {
      assert |Dropped(s)| == 0;
    }
  }

  /** What the quest emits over a run. */
  function Notified(quest: string, sched: seq<Label>): seq<Event> {
    if sched == [] then []
    else (if sched[0].Emit? && sched[0].snipe == quest then [sched[0].e] else []) + Notified(quest, sched[1..])
  }

  lemma Regroup(a: seq<Event>, b: seq<Event>, c: seq<Event>)
    ensures a + (b + c) == a + b + c
    ensures b == [] ==> a + c + b == a + b + c
  {
  }

  /** The notification of this label, if the quest makes one and the call is not over. */
  function Own(s: State, l: Label): seq<Event> {
    if s.phase != Returned && l.Emit? && l.snipe == s.quest then [l.e] else []
  }

  lemma OwnIsAdded(s: State, l: Label)
    requires Enabled(s, l)
    ensures var t := Apply(s, l);
            && t.quest == s.quest && (s.phase == Returned ==> t.phase == Returned)
            && if s.phase == Replaying then t.missed == s.missed + Own(s, l) && t.emitted == s.emitted
               else t.missed == s.missed && t.emitted == s.emitted + Own(s, l)
  {
  }

  lemma NotifiedStep(s: State, l: Label)
    requires Inv(s) && Enabled(s, l)
    ensures Apply(s, l).quest == s.quest
    ensures Apply(s, l).missed + Apply(s, l).emitted == s.missed + s.emitted + Own(s, l)
    ensures s.phase == Returned ==> Apply(s, l).phase == Returned
  {
    assert s.phase == Replaying ==> s.emitted == [];
    hide Inv, Apply, Own, Enabled;
    OwnIsAdded(s, l);
    Regroup(s.missed, s.emitted, Own(s, l));
  }

  lemma {:induction false} NotifiedRun(s: State, sched: seq<Label>)
    requires Inv(s) && Follows(s, sched)
    ensures var t := After(s, sched);
            && t.missed + t.emitted <= s.missed + s.emitted + Notified(s.quest, sched)
            && (t.phase != Returned ==> t.missed + t.emitted == s.missed + s.emitted + Notified(s.quest, sched))
            && (s.phase == Returned ==> t.missed + t.emitted == s.missed + s.emitted && t.phase == Returned)
    decreases |sched|
  {
    hide Inv, Apply;
    if sched != [] {
      var l, u := sched[0], Apply(s, sched[0]);
      NotifiedStep(s, l);
      StepKeepsInv(s, l);
      NotifiedRun(u, sched[1..]);
      assert Follows(u, sched[1..]) && After(s, sched) == After(u, sched[1..]);
      var own := if l.Emit? && l.snipe == s.quest then [l.e] else [];
      assert Own(s, l) == if s.phase == Returned then [] else own;
      assert Notified(s.quest, sched) == own + Notified(s.quest, sched[1..]);
      hide Notified, Own, Next;
      ghost var heard, later := s.missed + s.emitted, Notified(s.quest, sched[1..]);
      assert heard + [] == heard && heard + (own + later) == heard + own + later;
    }
  }

  /** While the call lasts, each notification of the quest since its history was read was
      missed before it subscribed or emitted to it after, in that order. */
  lemma MissedOrEmitted(quest: string, history: seq<Event>, closed: bool, sched: seq<Label>)
    requires Follows(Start(quest, history, closed), sched)
    ensures var s := After(Start(quest, history, closed), sched);
            && s.missed + s.emitted <= Notified(quest, sched)
            && (s.phase != Returned ==> s.missed + s.emitted == Notified(quest, sched))
  {
    assert Inv(Start(quest, history, closed));
    NotifiedRun(Start(quest, history, closed), sched);
    assert [] + [] + Notified(quest, sched) == Notified(quest, sched);
  }

  // When a call ends by itself

  /** Neither the client's leaving nor a new notification of the quest. */
  predicate Quiet(quest: string, l: Label) { !l.Cancel? && (l.Emit? ==> l.snipe != quest) }

  ghost predicate QuietRun(s: State, sched: seq<Label>) {
    Follows(s, sched) && forall l | l in sched :: Quiet(s.quest, l)
  }

  /** The call can still return with nothing more from the client or the quest. */
  ghost predicate CanEnd(s: State) {
    exists sched :: QuietRun(s, sched) && After(s, sched).phase == Returned
  }

  ghost predicate HasTerminal(live: seq<Event>) { exists i :: 0 <= i < |live| && EndsQuest(live[i]) }

  ghost predicate WillHear(s: State) {
    s.phase == Returned || s.cancelled || (s.phase == Replaying && s.closed) || HasTerminal(s.live)
  }

  lemma ReplayingIsSilent(s: State)
    requires Inv(s) && s.phase == Replaying
    ensures s.live == []
  {
    PickLength(s.emitted, s.accepted);
  }

  lemma NoTerminalAhead(live: seq<Event>)
    requires live != [] && !HasTerminal(live)
    ensures !EndsQuest(live[0]) && !HasTerminal(live[1..])
  {
    assert forall i | 0 <= i < |live| - 1 :: live[1..][i] == live[i + 1];
  }

  lemma StaysDeaf(s: State, l: Label)
    requires Inv(s) && Enabled(s, l) && Quiet(s.quest, l) && !WillHear(s)
    ensures !WillHear(Apply(s, l)) && Apply(s, l).quest == s.quest
  {
    if s.phase == Replaying {
      ReplayingIsSilent(s);
    }
    hide Inv, HasTerminal;
    if l.Receive? {
      TerminalEventExactly(s.live[0]);
      NoTerminalAhead(s.live);
    }
  }

  lemma {:induction false} DeafRun(s: State, sched: seq<Label>)
    requires Inv(s) && QuietRun(s, sched) && !WillHear(s)
    ensures !WillHear(After(s, sched))
    decreases |sched|
  {
    hide Inv, WillHear;
    if sched != [] {
      StaysDeaf(s, sched[0]);
      StepKeepsInv(s, sched[0]);
      assert forall l | l in sched[1..] :: l in sched;
      DeafRun(Apply(s, sched[0]), sched[1..]);
    }
  }

  lemma Prepend(s: State, l: Label, rest: seq<Label>) returns (sched: seq<Label>)
    requires Enabled(s, l) && Quiet(s.quest, l) && QuietRun(Apply(s, l), rest)
    ensures QuietRun(s, sched) && After(s, sched) == After(Apply(s, l), rest)
  {
    sched := [l] + rest;
    assert sched[1..] == rest;
  }

  function Distance(s: State): int {
    (match s.phase case Replaying => 2 case Pumping => 1 case Returned => 0) + (|s.history| - s.replayed) + |s.live|
  }

  function Ahead(s: State): Label {
    if s.phase == Replaying then (if s.replayed < |s.history| then Replay else Register)
    else if s.cancelled then SeeCancel
    else Receive
  }

  /** What a call with something to hear does next brings it closer to its return. */
  lemma AheadCloser(s: State)
    requires Inv(s) && WillHear(s) && s.phase != Returned
    ensures Enabled(s, Ahead(s)) && Quiet(s.quest, Ahead(s))
    ensures WillHear(Apply(s, Ahead(s))) && Distance(Apply(s, Ahead(s))) < Distance(s)
  {
    if Ahead(s) == Receive {
      TerminalEventExactly(s.live[0]);
      assert forall i | 0 < i < |s.live| :: s.live[1..][i - 1] == s.live[i];
    }
  }

  /** The actions that take a call to its return, where it has something to hear. */
  lemma {:induction false} EndingRun(s: State) returns (sched: seq<Label>)
    requires Inv(s) && WillHear(s)
    ensures QuietRun(s, sched) && After(s, sched).phase == Returned
    decreases Distance(s) + 3
  {
    if s.phase == Returned {
      sched := [];
    } else {
      assert Distance(s) >= 0;
      hide Inv, WillHear, Apply, Distance, Quiet, Ahead;
      AheadCloser(s);
      StepKeepsInv(s, Ahead(s));
      var rest := EndingRun(Apply(s, Ahead(s)));
      sched := Prepend(s, Ahead(s), rest);
    }
  }

  /** A call can still return by itself exactly when it has, when the client has left, when it
      is replaying a closed quest, or when a terminal event waits in its buffer. */
  lemma CanEndExactly(s: State)
    requires Inv(s)
    ensures CanEnd(s) <==> WillHear(s)
  {
    if WillHear(s) {
      var sched := EndingRun(s);
    } else {
      forall sched | QuietRun(s, sched) ensures After(s, sched).phase != Returned {
        DeafRun(s, sched);
      }
    }
  }

  ghost predicate OnlyTerminal(s: State, p: nat) {
    && p < |s.emitted| && EndsQuest(s.emitted[p])
    && forall q | 0 <= q < |s.emitted| && EndsQuest(s.emitted[q]) :: q == p
  }

  lemma LiveIs(s: State, i: nat)
    requires Inv(s) && i < |s.live|
    ensures s.taken + i < |s.accepted| && s.accepted[s.taken + i] < |s.emitted|
    ensures s.live[i] == s.emitted[s.accepted[s.taken + i]]
  {
    assert s.live[i] == Pick(s.emitted, s.accepted)[s.taken + i];
  }

  lemma HeardIfAccepted(s: State, p: nat)
    requires Inv(s) && OnlyTerminal(s, p) && p in s.accepted
    ensures WillHear(s)
  {
    var k :| 0 <= k < |s.accepted| && s.accepted[k] == p;
    if k >= s.taken {
      assert s.live[k - s.taken] == Pick(s.emitted, s.accepted)[k];
    }
  }

  lemma AcceptedIfHeard(s: State, p: nat)
    requires Inv(s) && OnlyTerminal(s, p) && WillHear(s) && !s.cancelled && !s.closed
    ensures p in s.accepted
  {
    if HasTerminal(s.live) {
      var i :| 0 <= i < |s.live| && EndsQuest(s.live[i]);
      LiveIs(s, i);
    }
  }

  /** The quest's terminal event, emitted after the call subscribed, ends a call that the
      client has not left exactly when it found room in the buffer. */
  lemma TerminalHeardExactly(quest: string, history: seq<Event>, sched: seq<Label>, p: nat)
    requires Follows(Start(quest, history, false), sched)
    requires var s := After(Start(quest, history, false), sched); !s.cancelled && OnlyTerminal(s, p)
    ensures var s := After(Start(quest, history, false), sched); CanEnd(s) <==> p in s.accepted
  {
    hide Inv, WillHear, CanEnd, OnlyTerminal, Follows, After;
    InvHolds(quest, history, false, sched);
    var s := After(Start(quest, history, false), sched);
    CanEndExactly(s);
    if p in s.accepted {
      HeardIfAccepted(s, p);
    } else if WillHear(s) {
      AcceptedIfHeard(s, p);
    }
  }

  /** A terminal event emitted before the call subscribed is never heard: whatever was missed,
      a call on an open quest without a terminal event since can only wait. */
  lemma MissedNeverHeard(quest: string, history: seq<Event>, sched: seq<Label>)
    requires Follows(Start(quest, history, false), sched)
    requires var s := After(Start(quest, history, false), sched);
             !s.cancelled && forall q | 0 <= q < |s.emitted| :: !EndsQuest(s.emitted[q])
    ensures !CanEnd(After(Start(quest, history, false), sched))
  {
    InvHolds(quest, history, false, sched);
    var s := After(Start(quest, history, false), sched);
    CanEndExactly(s);
    assert forall i | 0 <= i < |s.live| :: s.live[i] == Pick(s.emitted, s.accepted)[s.taken + i];
  }

  /** The quest is booked while the call is between its history and its subscription: the call
      that should end with the quest waits for the client. */
  lemma MissedSchedule(quest: string, e: Event) returns (sched: seq<Label>)
    requires EndsQuest(e)
    ensures Follows(Start(quest, [], false), sched)
    ensures var s := After(Start(quest, [], false), sched); s.missed == [e] && s.phase == Pumping && !CanEnd(s)
  {
    var s := Start(quest, [], false);
    Extend(Next, s, [], Emit(quest, e));
    Extend(Next, s, [] + [Emit(quest, e)], Register);
    sched := [] + [Emit(quest, e)] + [Register];
    MissedNeverHeard(quest, [], sched);
  }

  /** Cancelling the quest changes nothing for the calls open on it: each can return by itself
      after it exactly when it could before. */
  lemma CallOffIsSilent(s: State)
    requires Inv(s)
    ensures CanEnd(Apply(s, CallOff)) <==> CanEnd(s)
  {
    StepKeepsInv(s, CallOff);
    CanEndExactly(s);
    CanEndExactly(Apply(s, CallOff));
  }

  /** The quest is cancelled while a call is open on it: the quest has ended, and the call waits
      for the client. */
  lemma CalledOffSchedule(quest: string) returns (sched: seq<Label>)
    ensures Follows(Start(quest, [], false), sched)
    ensures var s := After(Start(quest, [], false), sched); s.calledOff && s.phase == Pumping && !CanEnd(s)
  {
    var s := Start(quest, [], false);
    Extend(Next, s, [], Register);
    Extend(Next, s, [] + [Register], CallOff);
    sched := [] + [Register] + [CallOff];
    MissedNeverHeard(quest, [], sched);
  }

  lemma {:induction false} FillBuffer(quest: string, filler: Event, n: nat) returns (sched: seq<Label>)
    requires n <= BUFFER && !EndsQuest(filler)
    ensures Follows(Start(quest, [], false), sched)
    ensures var s := After(Start(quest, [], false), sched);
            && s.quest == quest && s.phase == Pumping && !s.cancelled && |s.live| == n == |s.emitted|
            && (forall i | 0 <= i < n :: s.emitted[i] == filler)
            && forall i | 0 <= i < |s.accepted| :: s.accepted[i] < n
  {
    if n == 0 {
      Extend(Next, Start(quest, [], false), [], Register);
      sched := [] + [Register];
    } else {
      var shorter := FillBuffer(quest, filler, n - 1);
      Extend(Next, Start(quest, [], false), shorter, Emit(quest, filler));
      sched := shorter + [Emit(quest, filler)];
    }
  }

  /** With the buffer full the terminal event is dropped, and the call outlives the quest. */
  lemma DroppedSchedule(quest: string, filler: Event, e: Event) returns (sched: seq<Label>)
    requires EndsQuest(e) && !EndsQuest(filler)
    ensures Follows(Start(quest, [], false), sched)
    ensures var s := After(Start(quest, [], false), sched);
            |s.emitted| == BUFFER + 1 && s.emitted[BUFFER] == e && BUFFER !in s.accepted && !CanEnd(s)
  {
    var full := FillBuffer(quest, filler, BUFFER);
    Extend(Next, Start(quest, [], false), full, Emit(quest, e));
    sched := full + [Emit(quest, e)];
    TerminalHeardExactly(quest, [], sched, BUFFER);
  }

  // The emitter

  function Lower(): (nat, nat) -> bool { (a, b) => a <= b }

  /** Each subscriber once, earlier registrations first. */
  ghost predicate InOrder(order: seq<nat>, subs: set<nat>) {
    && (forall id :: id in order <==> id in subs)
    && forall i, j | 0 <= i < j < |order| :: order[i] < order[j]
  }

  function CallsTo(order: seq<nat>, e: Event): seq<(nat, Event)> {
    if order == [] then [] else CallsTo(order[..|order| - 1], e) + [(order[|order| - 1], e)]
  }

  lemma SortedSnapshot(ids: seq<nat>, subs: set<nat>)
    requires multiset(ids) == multiset(subs)
    ensures InOrder(Sort(Lower(), ids), subs)
  {
    var s := Sort(Lower(), ids);
    SortCorrect(Lower(), ids);
    forall id ensures id in s <==> id in subs {
      assert id in multiset(s) <==> id in multiset(subs);
    }
    forall i, j | 0 <= i < j < |s| ensures s[i] < s[j] {
      if s[i] == s[j] {
        TwicePresent(s, i, j);
      }
    }
  }

  lemma TwicePresent(s: seq<nat>, i: nat, j: nat)
    requires i < j < |s| && s[i] == s[j]
    ensures multiset(s)[s[i]] >= 2
  {
    assert s == s[..j] + [s[j]] + s[j + 1..];
    assert s[i] in s[..j];
    assert multiset(s[..j])[s[i]] >= 1;
  }

  /** The engine's registry: a subscriber is known by its number, and the log records who was
      called with what. */
  class Engine {
    var subs: set<nat>
    var nextSubID: nat
    var calls: seq<(nat, Event)>

    ghost predicate Valid()
      reads this
    {
      forall id | id in subs :: id < nextSubID
    }

    constructor ()
      ensures Valid() && subs == {} && nextSubID == 0 && calls == []
    {
      subs, nextSubID, calls := {}, 0, [];
    }

    method Subscribe() returns (id: nat)
      requires Valid()
      modifies this
      ensures Valid() && subs == old(subs) + {id} && id == old(nextSubID) < nextSubID && id !in old(subs)
      ensures calls == old(calls)
    {
      id := nextSubID;
      subs, nextSubID := subs + {id}, nextSubID + 1;
    }

    method CancelSubscription(id: nat)
      requires Valid()
      modifies this
      ensures Valid() && subs == old(subs) - {id} && nextSubID == old(nextSubID) && calls == old(calls)
    {
      subs := subs - {id};
    }

    /** The ids of the map in whatever order the loop visits them. */
    method SnapshotIds() returns (ids: seq<nat>)
      ensures multiset(ids) == multiset(subs)
    {
      ids := [];
      var left := subs;
      while left != {}
        invariant left <= subs && multiset(ids) + multiset(left) == multiset(subs)
        decreases |left|
      {
        var id :| id in left;
        assert left == left - {id} + {id};
        ids, left := ids + [id], left - {id};
      }
    }

    /** Every subscriber of the snapshot is called once, in registration order, even though a
        callback may subscribe or cancel meanwhile. */
    method EmitToAll(e: Event) returns (ghost order: seq<nat>)
      requires Valid()
      modifies this
      ensures Valid() && InOrder(order, old(subs))
      ensures calls == old(calls) + CallsTo(order, e)
    {
      hide Sort, Lower;
      var ids := SnapshotIds();
      var a := new nat[|ids|](i requires 0 <= i < |ids| => ids[i]);
      assert a[..] == ids;
      SortedSnapshot(ids, subs);
      InsertionSort(a, Lower());
      ids, order := a[..], a[..];
      ghost var was := calls;
      for i := 0 to |ids|
        invariant Valid() && calls == was + CallsTo(ids[..i], e)
      {
        calls := calls + [(ids[i], e)];
        React();
        assert ids[..i + 1][..i] == ids[..i];
      }
      assert ids[..|ids|] == ids;
    }

    /** Whatever a callback does to the registry. */
    method React()
      requires Valid()
      modifies this
      ensures Valid() && calls == old(calls)
    {
      var n: int := *;
      while n > 0
        invariant Valid() && calls == old(calls)
      {
        var id: int, join: bool := *, *;
        if join {
          var added := Subscribe();
        } else if id >= 0 {
          CancelSubscription(id);
        }
        n := n - 1;
      }
    }
  }
}
