/** CreateQuest and CancelQuest: at most one quest per recorded key and goal. */
module QuestService {
  import opened IdempotencyStore
  import opened Lifecycle
  import opened Options
  import opened Text

  const CREATE := "create_quest"
  const CANCEL := "cancel_quest"

  datatype QuestRow = QuestRow(user: string, goal: string, planHash: string, status: Status, completedAt: Option<int>)

  datatype QuestEvent = QuestEvent(user: string, quest: string, kind: Status, at: int)

  datatype CallError =
    | InvalidArgument
    | LookupFailed
    | IdempotencyConflict
    | Replayed(text: string)
    | Reported(text: string)

  /** The id and error a call returns. */
  datatype Outcome = Outcome(id: string, error: Option<CallError>)

  /** The error as the table stores it; empty for a success. */
  function StoredError(o: Outcome): string {
    match o.error case Some(Reported(text)) => text case _ => ""
  }

  function Replaying(v: Verdict): Outcome
    requires v.Replay?
  {
    Outcome(v.target, if v.error == "" then None else Some(Replayed(v.error)))
  }

  /** SHA-256 and hex, taken as injective. */
  ghost predicate IdealDigest(digest: string -> string) {
    (forall a, b :: digest(a) == digest(b) ==> a == b) && forall a :: NoColon(digest(a))
  }

  /** The parts of the store and the engine that a call can change. */
  datatype World = World(
    idempotency: Table, quests: map<string, QuestRow>, snipes: set<string>, events: seq<QuestEvent>)

  /** The answer of the verb's own work, before anything is recorded: plan, account, id,
      quest row, engine, event, each of which may fail. */
  ghost predicate FreshCreate(was: World, user: string, goal: string, planHash: Option<string>, now: int,
                              r: Outcome, after: World) {
    && after.idempotency == was.idempotency
    && (r.error.Some? ==> r.error.value.Reported? && r.error.value.text != "")
    && (r.id == "" ==> r.error.Some? && after == was)
    && (r.id != "" ==>
          && r.id !in was.quests && r.id in after.quests && after.quests == was.quests[r.id := after.quests[r.id]]
          && after.quests[r.id].user == user && after.quests[r.id].goal == goal
          && after.quests[r.id].status == Submitted
          && (planHash.Some? ==> after.quests[r.id].planHash == planHash.value)
          && (after.snipes == was.snipes + {r.id} || (r.error.Some? && after.snipes == was.snipes))
          && (after.events == was.events
              || (r.error.None? && after.events == was.events + [QuestEvent(user, r.id, Submitted, now)])))
  }

  ghost predicate FreshCancel(was: World, user: string, id: string, now: int, r: Outcome, after: World) {
    && after.idempotency == was.idempotency && after.snipes == was.snipes && r.id == id
    && (r.error.Some? ==> r.error.value.Reported? && r.error.value.text != "" && after == was)
    && (r.error.None? ==>
          && id in was.quests && was.quests[id].user == user && id in after.quests
          && IsTerminal(after.quests[id].status)
          && (if IsTerminal(was.quests[id].status) then after == was
              else
                && after.quests == was.quests[id := was.quests[id].(status := Canceled, completedAt := Some(now))]
                && (after.events == was.events || after.events == was.events + [QuestEvent(user, id, Canceled, now)])))
  }

  class Service {
    const digest: string -> string
    var world: World
    /** How many calls of the store, the engine, the planner and the random source have failed. */
    ghost var faults: nat

    constructor (digest: string -> string)
      ensures this.digest == digest && world == World(map[], map[], {}, []) && faults == 0
    {
      this.digest, world, faults := digest, World(map[], map[], {}, []), 0;
    }

    method Call() returns (ok: bool)
      modifies this`faults
      ensures faults == old(faults) + if ok then 0 else 1
    {
      ok := *;
      if !ok { faults := faults + 1; }
    }

    ghost predicate Valid()
      reads this
    {
      IdealDigest(digest) && Sound(world.idempotency)
    }

    /** recordIdempotency: no key, no row; a failed write is only logged. */
    method Record(user: string, scope: string, key: string, payload: string, o: Outcome, now: int)
      returns (recorded: bool)
      requires Valid() && NoColon(user) && Decide(world.idempotency, user, scope, key, payload, now) == Fresh
      modifies this`world, this`faults
      ensures faults >= old(faults)
      ensures Valid() && (recorded ==> key != "") && (!recorded ==> key == "" || faults > old(faults))
      ensures world == if recorded
                then old(world).(idempotency :=
                       Put(old(world).idempotency, user, scope, key, payload, o.id, StoredError(o), now))
                else old(world)
      ensures KeepsLive(old(world).idempotency, world.idempotency, now)
    {
      recorded := key != "";
      if recorded {
        recorded := Call();
      }
      if recorded {
        PutKeepsSound(world.idempotency, user, scope, key, payload, o.id, StoredError(o), now);
        PutKeepsLive(world.idempotency, user, scope, key, payload, o.id, StoredError(o), now);
        world := world.(idempotency := Put(world.idempotency, user, scope, key, payload, o.id, StoredError(o), now));
      }
    }

    /** A random id; one that is taken counts as a failure of the random source. */
    method NewQuestId() returns (id: Option<string>)
      modifies this`faults
      ensures faults >= old(faults) && (id.None? ==> faults > old(faults))
      ensures id.Some? ==> id.value != "" && id.value !in world.quests
    {
      var drawn: string := *;
      if drawn != "" && drawn !in world.quests { return Some(drawn); }
      id := None;
      faults := faults + 1;
    }

    /** Planning, the plan-hash check, the account check, and the id: nothing is written yet. */
    method Prepare(planHash: Option<string>) returns (r: Result<(string, string), string>)
      modifies this`faults
      ensures faults >= old(faults)
      ensures r.Err? ==> r.error != "" && (planHash.Some? || faults > old(faults))
      ensures r.Ok? ==> r.value.0 != "" && r.value.0 !in world.quests
      ensures r.Ok? && planHash.Some? ==> r.value.1 == planHash.value
    {
      var plan: string, failure: string := *, *;
      var ok := Call();
      if !ok {
        return Err("PlanQuest: " + failure);
      }
      if planHash.Some? && planHash.value != plan {
        return Err("CreateQuest: plan hash mismatch");
      }
      ok := Call();
      if !ok {
        return Err("CreateQuest account: not found");
      }
      var id := NewQuestId();
      if id.None? {
        return Err("CreateQuest: no quest id");
      }
      return Ok((id.value, plan));
    }

    /** Without a pinned plan only a fault keeps the quest, its snipe or its event from being
        made. */
    method CreateFresh(user: string, goal: string, planHash: Option<string>, now: int) returns (r: Outcome)
      modifies this`world, this`faults
      ensures faults >= old(faults)
      ensures FreshCreate(old(world), user, goal, planHash, now, r, world)
      ensures r.error.Some? ==> planHash.Some? || faults > old(faults)
      ensures r.error.None? && faults == old(faults) ==>
              world.events == old(world).events + [QuestEvent(user, r.id, Submitted, now)]
    {
      var prepared := Prepare(planHash);
      if prepared.Err? {
        return Outcome("", Some(Reported(prepared.error)));
      }
      var id := prepared.value.0;
      var ok := Call();
      if !ok {
        return Outcome("", Some(Reported("CreateQuest persist: failed")));
      }
      world := world.(quests := world.quests[id := QuestRow(user, goal, prepared.value.1, Submitted, None)]);
      var stored: bool := *;
      ok := Call();
      if stored || ok {
        world := world.(snipes := world.snipes + {id});
      }
      if !ok {
        return Outcome(id, Some(Reported("CreateQuest engine submit: failed")));
      }
      ok := Call();
      world := world.(events := if ok then world.events + [QuestEvent(user, id, Submitted, now)] else world.events);
      return Outcome(id, None);
    }

    /** The lookup every keyed call starts with: Some is the call's answer. */
    method Precheck(user: string, scope: string, key: string, payload: string, now: int) returns (r: Option<Outcome>)
      requires Valid()
      modifies this`faults
      ensures faults >= old(faults) && (r == Some(Outcome("", Some(LookupFailed))) ==> faults > old(faults))
      ensures r == None ==> key == "" || Decide(world.idempotency, user, scope, key, payload, now) == Fresh
      ensures r.Some? ==> EarlyAnswer(world.idempotency, user, scope, key, payload, now, r.value)
    {
      if key == "" {
        return None;
      }
      var ok := Call();
      if !ok {
        return Some(Outcome("", Some(LookupFailed)));
      }
      var l := GetResult(world.idempotency, user, scope, key, payload, now);
      match Decision(l)
      case Fresh => return None;
      case Conflict => return Some(Outcome("", Some(IdempotencyConflict)));
      case Replay(t, e) => return Some(Replaying(Replay(t, e)));
    }

    /** A call with key "" or none is not recorded; otherwise its verdict decides: a replay or
        a conflict changes nothing, and a fresh call's outcome is what is recorded. */
    method CreateQuest(user: string, goal: string, key: string, planHash: Option<string>, now: int)
      returns (r: Outcome, recorded: bool)
      requires Valid() && NoColon(user)
      modifies this`world, this`faults
      ensures faults >= old(faults)
      ensures Valid() && KeepsLive(old(world).idempotency, world.idempotency, now)
      ensures Created(old(world), user, goal, planHash, key, digest(goal), now, r, recorded, world)
      ensures faults == old(faults) && user != "" ==>
              Undisturbed(old(world), user, CREATE, key, digest(goal), now, r, recorded, planHash.None?)
    {
      if user == "" {
        return Outcome("", Some(InvalidArgument)), false;
      }
      var payload := digest(goal);
      var early := Precheck(user, CREATE, key, payload, now);
      if early.Some? {
        return early.value, false;
      }
      ghost var was := world;
      r := CreateFresh(user, goal, planHash, now);
      ghost var mid := world;
      recorded := RecordIfKeyed(was.idempotency, user, CREATE, key, payload, r, now);
      assert FreshCreate(was, user, goal, planHash, now, r, mid);
      assert Recorded(was, mid, user, CREATE, key, payload, now, r, recorded, world);
    }

    method RecordIfKeyed(ghost table: Table, user: string, scope: string, key: string, payload: string, o: Outcome,
                         now: int)
      returns (recorded: bool)
      requires Valid() && NoColon(user) && table == world.idempotency
      requires key != "" ==> Decide(table, user, scope, key, payload, now) == Fresh
      modifies this`world, this`faults
      ensures faults >= old(faults)
      ensures Valid() && (recorded ==> key != "") && (!recorded ==> key == "" || faults > old(faults))
      ensures world == if recorded
                then old(world).(idempotency := Put(table, user, scope, key, payload, o.id, StoredError(o), now))
                else old(world)
      ensures KeepsLive(table, world.idempotency, now)
    {
      if key == "" {
        return false;
      }
      recorded := Record(user, scope, key, payload, o, now);
    }

    method CancelFresh(user: string, id: string, now: int) returns (r: Outcome)
      modifies this`world, this`faults
      ensures faults >= old(faults)
      ensures FreshCancel(old(world), user, id, now, r, world)
      ensures r.error.Some? ==>
              id !in old(world).quests || old(world).quests[id].user != user || faults > old(faults)
    {
      var ok := Call();
      if !ok || id !in world.quests || world.quests[id].user != user {
        return Outcome(id, Some(Reported("not found")));
      }
      if IsTerminal(world.quests[id].status) {
        return Outcome(id, None);
      }
      ok := Call();
      if !ok {
        return Outcome(id, Some(Reported("CancelQuest: failed")));
      }
      var logged := Call();
      world := world.(
        quests := world.quests[id := world.quests[id].(status := Canceled, completedAt := Some(now))],
        events := if logged then world.events + [QuestEvent(user, id, Canceled, now)] else world.events);
      return Outcome(id, None);
    }

    /** The same protocol, with the quest's id as the payload. */
    method CancelQuest(user: string, id: string, key: string, now: int) returns (r: Outcome, recorded: bool)
      requires Valid() && NoColon(user)
      modifies this`world, this`faults
      ensures faults >= old(faults)
      ensures Valid() && KeepsLive(old(world).idempotency, world.idempotency, now)
      ensures Cancelled(old(world), user, id, key, digest(id), now, r, recorded, world)
      ensures faults == old(faults) && user != "" ==>
              Undisturbed(old(world), user, CANCEL, key, digest(id), now, r, recorded,
                          id in old(world).quests && old(world).quests[id].user == user)
    {
      if user == "" {
        return Outcome("", Some(InvalidArgument)), false;
      }
      var payload := digest(id);
      var early := Precheck(user, CANCEL, key, payload, now);
      if early.Some? {
        return early.value, false;
      }
      ghost var was := world;
      r := CancelFresh(user, id, now);
      ghost var mid := world;
      recorded := RecordIfKeyed(was.idempotency, user, CANCEL, key, payload, r, now);
      assert FreshCancel(was, user, id, now, r, mid);
      assert Recorded(was, mid, user, CANCEL, key, payload, now, r, recorded, world);
    }

    /** The sweep of expired rows. */
    method PruneExpired(now: int)
      requires Valid()
      modifies this`world
      ensures Valid() && world == old(world).(idempotency := Prune(old(world).idempotency, now))
      ensures KeepsLive(old(world).idempotency, world.idempotency, now)
    {
      PruneKeepsLive(world.idempotency, "", "", "", "", now);
      world := world.(idempotency := Prune(world.idempotency, now));
    }

    /** Any calls at all, at times that never go back. */
    method AnyCalls(calls: seq<Call>)
      requires Valid() && (forall i | 0 <= i < |calls| :: NoColon(calls[i].user))
      requires forall i, j | 0 <= i < j < |calls| :: calls[i].now <= calls[j].now
      modifies this`world, this`faults
      ensures faults >= old(faults)
      ensures Valid()
      ensures calls == [] ==> world == old(world)
      ensures calls != [] ==> KeepsLive(old(world).idempotency, world.idempotency, calls[|calls| - 1].now)
    {
      hide KeepsLive, Sound, IdealDigest, Created, Cancelled;
      for i := 0 to |calls|
        invariant Valid()
        invariant (i == 0 ==> world == old(world)) && faults >= old(faults)
        invariant i > 0 ==> KeepsLive(old(world).idempotency, world.idempotency, calls[i - 1].now)
      {
        ghost var before := world.idempotency;
        var c := calls[i];
        match c {
          case Create(user, now, goal, key, planHash) => var r, ok := CreateQuest(user, goal, key, planHash, now);
          case Cancel(user, now, id, key) => var r, ok := CancelQuest(user, id, key, now);
          case Sweep(user, now) => PruneExpired(now);
        }
        if i > 0 {
          KeepsLiveLater(old(world).idempotency, before, world.idempotency, calls[i - 1].now, c.now);
        }
      }
    }

    /** At most once: after a call that was recorded, and any calls by anyone after it, the
        same call gets the recorded answer and changes nothing until the row expires. What
        plan each of them pins makes no difference; between is the world before the second. */
    method CreateTwice(user: string, goal: string, key: string, pin0: Option<string>, t0: int, calls: seq<Call>,
                       pin1: Option<string>, t1: int)
      returns (first: Outcome, recorded: bool, second: Outcome, ghost between: World)
      requires Valid() && NoColon(user) && (forall i | 0 <= i < |calls| :: NoColon(calls[i].user))
      requires forall i, j | 0 <= i < j < |calls| :: calls[i].now <= calls[j].now
      requires forall i | 0 <= i < |calls| :: t0 <= calls[i].now <= t1
      requires t0 <= t1 < Millis(t0 + TTL)
      modifies this`world, this`faults
      ensures faults >= old(faults)
      ensures Valid()
      ensures recorded ==> HasRow(between.idempotency, user, CREATE, key, digest(goal), first, t0)
      ensures recorded ==> world == between
      ensures recorded ==> second == Outcome("", Some(LookupFailed)) || Repeats(first, second)
      ensures recorded && faults == old(faults) ==> Repeats(first, second)
    {
      first, recorded := CreateQuest(user, goal, key, pin0, t0);
      assert recorded ==> user != "" && key != "";
      assert recorded ==> HasRow(world.idempotency, user, CREATE, key, digest(goal), first, t0) && Final(first);
      AnyCalls(calls);
      between := world;
      if recorded {
        second := RepeatCreate(user, goal, key, pin1, t1, first, t0);
      } else {
        var ok;
        second, ok := CreateQuest(user, goal, key, pin1, t1);
      }
    }

    /** A call whose outcome is on record and has not expired answers with it, or with a failed
        lookup, and leaves the world as it is, whatever plan it pins. */
    method RepeatCreate(user: string, goal: string, key: string, planHash: Option<string>, now: int,
                        ghost first: Outcome, ghost t0: int) returns (r: Outcome)
      requires Valid() && NoColon(user) && user != "" && key != ""
      requires HasRow(world.idempotency, user, CREATE, key, digest(goal), first, t0) && Final(first)
      requires now < Millis(t0 + TTL)
      modifies this`world, this`faults
      ensures faults >= old(faults)
      ensures Valid() && world == old(world)
      ensures (r == Outcome("", Some(LookupFailed)) && faults > old(faults)) || Repeats(first, r)
    {
      ghost var was := world;
      var recorded;
      r, recorded := CreateQuest(user, goal, key, planHash, now);
      ReplayChangesNothing(was, user, goal, planHash, key, digest(goal), now, r, recorded, world);
    }

    /** The same for a cancellation: once recorded it is answered with what it was answered. */
    method CancelTwice(user: string, id: string, key: string, t0: int, calls: seq<Call>, t1: int)
      returns (first: Outcome, recorded: bool, second: Outcome, ghost between: World)
      requires Valid() && NoColon(user) && (forall i | 0 <= i < |calls| :: NoColon(calls[i].user))
      requires forall i, j | 0 <= i < j < |calls| :: calls[i].now <= calls[j].now
      requires forall i | 0 <= i < |calls| :: t0 <= calls[i].now <= t1
      requires t0 <= t1 < Millis(t0 + TTL)
      modifies this`world, this`faults
      ensures faults >= old(faults)
      ensures Valid()
      ensures recorded ==> world == between
      ensures recorded ==> second == Outcome("", Some(LookupFailed)) || Repeats(first, second)
      ensures recorded && faults == old(faults) ==> Repeats(first, second)
    {
      first, recorded := CancelQuest(user, id, key, t0);
      assert recorded ==> user != "" && key != "";
      assert recorded ==> HasRow(world.idempotency, user, CANCEL, key, digest(id), first, t0) && Final(first);
      AnyCalls(calls);
      between := world;
      var again;
      second, again := CancelQuest(user, id, key, t1);
      if recorded {
        CancelReplayed(between, user, id, key, digest(id), t1, second, again, world);
      }
    }
  }

  /** A request to the service, or the sweep; its user only names who asked. */
  datatype Call =
    | Create(user: string, now: int, goal: string, key: string, planHash: Option<string>)
    | Cancel(user: string, now: int, id: string, key: string)
    | Sweep(user: string, now: int)

  /** The outcome of a call made at t0 is on record. */
  ghost predicate HasRow(t: Table, user: string, scope: string, key: string, payload: string, o: Outcome, t0: int) {
    var k := KeyText(user, scope, key, payload);
    k in t && t[k] == NewEntry(user, scope, key, o.id, StoredError(o), t0)
  }

  /** What a call that did its work answers: a success, or a failure with a text. */
  ghost predicate Final(o: Outcome) {
    o.error.None? || (o.error.value.Reported? && o.error.value.text != "")
  }

  /** The second answer is the first one again: the same id, a success for a success, and a
      failure with the same text for a failure. */
  ghost predicate Repeats(first: Outcome, second: Outcome) {
    && second.id == first.id
    && (second.error.None? <==> first.error.None?)
    && forall text :: first.error == Some(Reported(text)) ==> second.error == Some(Replayed(text))
  }

  /** A call that nothing went wrong for: its lookup decides, and a fresh one is recorded under
      its key, and succeeds if it can. */
  ghost predicate Undisturbed(was: World, user: string, scope: string, key: string, payload: string, now: int,
                              r: Outcome, recorded: bool, can: bool) {
    if key != "" && Decide(was.idempotency, user, scope, key, payload, now) != Fresh then
      r != Outcome("", Some(LookupFailed))
    else (recorded <==> key != "") && (can ==> r.error.None?)
  }

  ghost predicate EarlyAnswer(t: Table, user: string, scope: string, key: string, payload: string, now: int,
                              r: Outcome) {
    key != "" && (r == Outcome("", Some(LookupFailed))
                  || match Decide(t, user, scope, key, payload, now)
                     case Fresh => false
                     case Conflict => r == Outcome("", Some(IdempotencyConflict))
                     case Replay(target, e) => r == Replaying(Replay(target, e)))
  }

  /** The call was answered before doing anything. */
  ghost predicate Answered(was: World, user: string, scope: string, key: string, payload: string, now: int,
                           r: Outcome, recorded: bool, after: World) {
    && after == was && !recorded
    && if user == "" then r == Outcome("", Some(InvalidArgument))
       else EarlyAnswer(was.idempotency, user, scope, key, payload, now, r)
  }

  /** The call did its work, leaving mid, and its outcome was recorded or not. */
  ghost predicate Recorded(was: World, mid: World, user: string, scope: string, key: string, payload: string, now: int,
                           r: Outcome, recorded: bool, after: World) {
    && user != "" && (key != "" ==> Decide(was.idempotency, user, scope, key, payload, now) == Fresh)
    && (recorded ==> key != "")
    && after == if recorded
         then mid.(idempotency := Put(mid.idempotency, user, scope, key, payload, r.id, StoredError(r), now))
         else mid
  }

  ghost predicate Created(was: World, user: string, goal: string, planHash: Option<string>, key: string,
                          payload: string, now: int, r: Outcome, recorded: bool, after: World) {
    || Answered(was, user, CREATE, key, payload, now, r, recorded, after)
    || exists mid :: FreshCreate(was, user, goal, planHash, now, r, mid)
         && Recorded(was, mid, user, CREATE, key, payload, now, r, recorded, after)
  }

  ghost predicate Cancelled(was: World, user: string, id: string, key: string, payload: string, now: int,
                            r: Outcome, recorded: bool, after: World) {
    || Answered(was, user, CANCEL, key, payload, now, r, recorded, after)
    || exists mid :: FreshCancel(was, user, id, now, r, mid)
         && Recorded(was, mid, user, CANCEL, key, payload, now, r, recorded, after)
  }

  /** A call whose own row is live changes nothing and answers with that row, unless the
      lookup itself failed. */
  lemma ReplayChangesNothing(was: World, user: string, goal: string, planHash: Option<string>, key: string,
                             payload: string, now: int, r: Outcome, recorded: bool, after: World)
    requires Created(was, user, goal, planHash, key, payload, now, r, recorded, after) && user != "" && key != ""
    requires Decide(was.idempotency, user, CREATE, key, payload, now).Replay?
    ensures after == was && !recorded
    ensures r == Outcome("", Some(LookupFailed))
         || r == Replaying(Decide(was.idempotency, user, CREATE, key, payload, now))
  {
  }

  lemma CancelReplayed(was: World, user: string, id: string, key: string, payload: string, now: int,
                       r: Outcome, recorded: bool, after: World)
    requires Cancelled(was, user, id, key, payload, now, r, recorded, after) && user != "" && key != ""
    requires Decide(was.idempotency, user, CANCEL, key, payload, now).Replay?
    ensures after == was && !recorded
    ensures r == Outcome("", Some(LookupFailed))
         || r == Replaying(Decide(was.idempotency, user, CANCEL, key, payload, now))
  {
  }

  /** A call adds at most one quest, one snipe and one event, and a success that was no
      replay adds exactly one quest and its snipe, both with the id it returns. */
  lemma OneQuestPerCall(was: World, user: string, goal: string, planHash: Option<string>, key: string, payload: string,
                        now: int, r: Outcome, recorded: bool, after: World)
    requires Created(was, user, goal, planHash, key, payload, now, r, recorded, after)
    ensures was.quests.Keys <= after.quests.Keys <= was.quests.Keys + {r.id}
    ensures was.snipes <= after.snipes <= was.snipes + {r.id}
    ensures was.events <= after.events && |after.events| <= |was.events| + 1
    ensures r.error.None? ==>
            (after == was && Decide(was.idempotency, user, CREATE, key, payload, now).Replay?)
            || (r.id !in was.quests && r.id in after.quests && r.id in after.snipes)
  {
  }

  /** A recorded create makes every other goal under its key a conflict while its row lives,
      unless that goal has a row of its own. */
  lemma OtherGoalConflicts(was: World, user: string, goal: string, planHash: Option<string>, key: string,
                           payload: string, other: string, now: int, r: Outcome, after: World, later: Table, t: int)
    requires Created(was, user, goal, planHash, key, payload, now, r, true, after)
    requires KeepsLive(after.idempotency, later, t) && t < Millis(now + TTL)
    requires KeyText(user, CREATE, key, other) !in later
    ensures Decide(later, user, CREATE, key, other, t) == Conflict
  {
    var k := KeyText(user, CREATE, key, payload);
    assert after.idempotency[k] == NewEntry(user, CREATE, key, r.id, StoredError(r), now);
    assert k in later && SameKey(later[k], user, CREATE, key) && Live(later[k], t);
  }

  /** Cancelling leaves a quest of the caller's terminal, and never wakes or alters a quest
      that already was. */
  lemma CancelIsFinal(was: World, user: string, id: string, key: string, payload: string, now: int,
                      r: Outcome, recorded: bool, after: World, q: string)
    requires Cancelled(was, user, id, key, payload, now, r, recorded, after) && q in was.quests
    ensures q in after.quests && (after.quests[q] != was.quests[q] ==>
              q == id && was.quests[q].user == user && !IsTerminal(was.quests[q].status)
              && after.quests[q].status == Canceled && after.quests[q].completedAt == Some(now))
    ensures after.quests.Keys == was.quests.Keys && after.snipes == was.snipes
  {
  }
}
