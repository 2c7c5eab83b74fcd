/** Statuses of a snipe, the transition table, and the per-snipe domain state. */
module Lifecycle {
  import opened Options
  import opened SlotRanking

  datatype Status =
    Submitted | Scheduled | Discovering | Awaiting | Finding | Booking | Booked | Failed | Canceled | Expired

  const AllStatuses: seq<Status> :=
    [Submitted, Scheduled, Discovering, Awaiting, Finding, Booking, Booked, Failed, Canceled, Expired]

  predicate IsTerminal(s: Status) { s in {Booked, Failed, Canceled, Expired} }

  function AllowedTransitions(from: Status): set<Status> {
    match from
    case Submitted => {Scheduled, Discovering, Canceled, Failed}
    case Scheduled => {Awaiting, Discovering, Canceled, Failed, Expired}
    case Discovering => {Awaiting, Canceled, Failed, Expired}
    case Awaiting => {Finding, Canceled, Failed, Expired}
    case Finding => {Booking, Awaiting, Canceled, Failed, Expired}
    case Booking => {Booked, Finding, Canceled, Failed}
    case Booked => {}
    case Failed => {}
    case Canceled => {}
    case Expired => {}
  }

  predicate CanTransition(from: Status, to: Status) { to in AllowedTransitions(from) }

  /** A status is terminal exactly when no change leaves it. */
  lemma TerminalExactly(s: Status)
    ensures IsTerminal(s) <==> forall to :: !CanTransition(s, to)
  {
    assert CanTransition(s, Canceled) || IsTerminal(s);
  }

  /** The table read by its targets: how each status can be entered. */
  lemma EnteredFrom(s: Status)
    ensures CanTransition(s, Failed) <==> exists to :: CanTransition(s, to)
    ensures CanTransition(s, Canceled) <==> exists to :: CanTransition(s, to)
    ensures CanTransition(s, Expired) <==> s in {Scheduled, Discovering, Awaiting, Finding}
    ensures CanTransition(s, Booked) <==> s == Booking
    ensures CanTransition(s, Booking) <==> s == Finding
    ensures CanTransition(s, Finding) <==> s in {Awaiting, Booking}
    ensures CanTransition(s, Awaiting) <==> s in {Scheduled, Discovering, Finding}
    ensures CanTransition(s, Discovering) <==> s in {Submitted, Scheduled}
    ensures CanTransition(s, Scheduled) <==> s == Submitted
    ensures !CanTransition(s, Submitted)
  {
    TerminalExactly(s);
  }

  function StatusName(s: Status): string {
    match s
    case Submitted => "submitted"
    case Scheduled => "scheduled"
    case Discovering => "discovering"
    case Awaiting => "awaiting"
    case Finding => "finding"
    case Booking => "booking"
    case Booked => "booked"
    case Failed => "failed"
    case Canceled => "canceled"
    case Expired => "expired"
  }

  /** The first status of the list with the given name. */
  function FindStatus(candidates: seq<Status>, name: string): Option<Status> {
    if candidates == [] then None
    else if StatusName(candidates[0]) == name then Some(candidates[0])
    else FindStatus(candidates[1..], name)
  }

  function ParseStatus(name: string): Option<Status> { FindStatus(AllStatuses, name) }

  /** What a row stores reads back as the status that wrote it. */
  lemma ParseStatusRoundTrip(s: Status)
    ensures ParseStatus(StatusName(s)) == Some(s)
  {
    var c := FindStatus(AllStatuses, StatusName(s));
    FindStatusFinds(AllStatuses, s);
    StatusNamesDiffer(c.value, s);
  }

  lemma {:induction false} FindStatusFinds(candidates: seq<Status>, s: Status)
    requires s in candidates
    ensures FindStatus(candidates, StatusName(s)).Some?
    ensures StatusName(FindStatus(candidates, StatusName(s)).value) == StatusName(s)
  {
    if StatusName(candidates[0]) != StatusName(s) {
      FindStatusFinds(candidates[1..], s);
    }
  }

  lemma StatusNamesDiffer(a: Status, b: Status)
    requires StatusName(a) == StatusName(b)
    ensures a == b
  {
    var x, y := StatusName(a), StatusName(b);
    assert |x| == |y| && x[0] == y[0] && x[1] == y[1] && x[|x| - 1] == y[|y| - 1];
  }

  /** A history of statuses: it starts at Submitted and takes only listed steps. */
  ghost predicate LegalTrail(t: seq<Status>) {
    if |t| <= 1 then t == [Submitted]
    else LegalTrail(t[..|t| - 1]) && CanTransition(t[|t| - 2], t[|t| - 1])
  }

  /** Nothing follows a terminal status, and every step is in the table. */
  lemma {:induction false} TerminalIsLast(t: seq<Status>, i: nat)
    requires LegalTrail(t) && i + 1 < |t|
    ensures CanTransition(t[i], t[i + 1]) && !IsTerminal(t[i]) && t[i] != t[i + 1]
  {
    if i + 2 < |t| {
      TerminalIsLast(t[..|t| - 1], i);
    }
  }

  lemma {:induction false} TrailStarts(t: seq<Status>)
    requires LegalTrail(t)
    ensures t != [] && t[0] == Submitted
  {
    if |t| > 1 {
      TrailStarts(t[..|t| - 1]);
    }
  }

  /** Every status is some legal trail's last one. */
  lemma EveryStatusReachable(s: Status) returns (t: seq<Status>)
    ensures LegalTrail(t) && t[|t| - 1] == s
  {
    t := StatusPaths(s)[0];
    PathsAreTrails(s, 0);
  }

  function StatusPaths(target: Status): (paths: seq<seq<Status>>)
    ensures |paths| > 0
  {
    match target
    case Submitted => [[Submitted]]
    case Scheduled => [[Submitted, Scheduled]]
    case Discovering => [[Submitted, Discovering], [Submitted, Scheduled, Discovering]]
    case Awaiting => [[Submitted, Scheduled, Awaiting], [Submitted, Discovering, Awaiting]]
    case Finding => [[Submitted, Scheduled, Awaiting, Finding]]
    case Booking => [[Submitted, Scheduled, Awaiting, Finding, Booking]]
    case Booked => [[Submitted, Scheduled, Awaiting, Finding, Booking, Booked]]
    case Failed => [[Submitted, Failed]]
    case Canceled => [[Submitted, Canceled]]
    case Expired => [[Submitted, Scheduled, Expired]]
  }

  lemma PathsAreTrails(target: Status, k: nat)
    requires k < |StatusPaths(target)|
    ensures var p := StatusPaths(target)[k]; LegalTrail(p) && p[|p| - 1] == target
  {
    var p := StatusPaths(target)[k];
    SteppedIsLegal(p);
  }

  lemma {:induction false} SteppedIsLegal(p: seq<Status>)
    requires p != [] && p[0] == Submitted
    requires forall i, j | 0 <= i < j < |p| && j == i + 1 :: CanTransition(p[i], p[j])
    ensures LegalTrail(p)
  {
    if |p| > 1 {
      SteppedIsLegal(p[..|p| - 1]);
    }
  }

  datatype SnipeId = SnipeId(name: string)

  datatype Reservation = Reservation(bookedAt: int, confirmationId: string)

  datatype Release =
    | Explicit(at: int)
    | Discovered(probeFrom: int, probeUntil: int)
    | Continuous(until: int)
    | NoRelease

  datatype Intent = Intent(venue: string, date: int, slotPrefs: seq<SlotPreference>, release: Release)

  /** The value of a snipe at one moment. */
  datatype Snapshot = Snapshot(id: SnipeId, intent: Intent, status: Status, scheduledAt: Option<int>,
                               result: Option<Reservation>, createdAt: int, updatedAt: int)

  class SnipeState {
    const id: SnipeId
    const intent: Intent
    const createdAt: int
    var status: Status
    var scheduledAt: Option<int>
    var result: Option<Reservation>
    var updatedAt: int

    ghost function View(): Snapshot
      reads this
    {
      Snapshot(id, intent, status, scheduledAt, result, createdAt, updatedAt)
    }

    constructor (id: SnipeId, intent: Intent, createdAt: int)
      ensures View() == Snapshot(id, intent, Submitted, None, None, createdAt, createdAt)
    {
      this.id, this.intent, this.createdAt := id, intent, createdAt;
      status, scheduledAt, result, updatedAt := Submitted, None, None, createdAt;
    }

    method Transition(to: Status) returns (ok: bool)
      modifies this`status
      ensures ok == CanTransition(old(status), to)
      ensures status == if ok then to else old(status)
    {
      ok := CanTransition(status, to);
      if ok { status := to; }
    }

    method Clone() returns (c: SnipeState)
      ensures fresh(c) && c.View() == View()
    {
      c := new SnipeState(id, intent, createdAt);
      c.status, c.scheduledAt, c.result, c.updatedAt := status, scheduledAt, result, updatedAt;
    }

    /** Walk a fresh state to the persisted status along the known paths. */
    method ForceStatus(target: Status) returns (ok: bool)
      modifies this`status
      ensures ok <==> exists k :: 0 <= k < |StatusPaths(target)| && old(status) in StatusPaths(target)[k]
      ensures status == if ok then target else old(status)
      ensures old(status) == Submitted ==> ok
    {
      PathsAreTrails(target, 0);
      TrailStarts(StatusPaths(target)[0]);
      if status == target { return true; }
      var paths := StatusPaths(target);
      for p := 0 to |paths|
        invariant status == old(status)
        invariant forall q | 0 <= q < p :: status !in paths[q]
      {
        var path := paths[p];
        PathsAreTrails(target, p);
        var i := 0;
        while i < |path| && path[i] != status
          invariant 0 <= i <= |path|
          invariant status !in path[..i]
        {
          i := i + 1;
        }
        if i == |path| { continue; }
        var walked := true;
        ghost var from := i;
        while i < |path| && walked
          invariant from <= i <= |path|
          invariant walked && status == if i == from then path[i] else path[i - 1]
        {
          if i > 0 { TerminalIsLast(path, i - 1); }
          if path[i] != status {
            walked := Transition(path[i]);
          }
          i := i + 1;
        }
        if walked && status == target { return true; }
      }
      ok := false;
    }
  }
}
