/** Content addressing of plans: what two plans with equal CanonicalBytes share. */
module PlanBytes {
  import opened CanonicalJson
  import opened Goals
  import opened Instants
  import opened Options
  import opened Sorting
  import opened Text

  datatype Strategy =
    | NoStrategy
    | Explicit(at: Instant)
    | Discovered(probeFrom: Instant, probeUntil: Instant)
    | Continuous(until: Instant)
    | UnknownVariant

  datatype Plan = Plan(
    goal: Goal, venue: Venue, dropMoment: Instant, strategy: Strategy, fireSchedule: seq<Instant>,
    signingRequired: bool, hash: string, notes: seq<string>, version: int, computedAt: Instant)

  datatype PlanError = StrategyUnknown

  function EffectiveVersion(version: int): int { if version <= 0 then 1 else version }

  function PriorityName(priority: int): string {
    if priority == 1 then "earlier" else if priority == 2 then "later" else "none"
  }

  function TzName(tz: Option<string>): string { if tz.Some? then tz.value else "" }

  function DateString(d: Date): string { DateDigits(d.year, d.month, d.day) }

  function WallString(w: WallTime): string { ClockDigits(w.hour, w.minute, w.second) }

  function Strings(ss: seq<string>): seq<Json> { seq(|ss|, i requires 0 <= i < |ss| => Str(ss[i])) }

  function Times(ts: seq<Instant>): seq<Json> { seq(|ts|, i requires 0 <= i < |ts| => Str(UtcNanos(ts[i]))) }

  function QueryJson(q: VenueQuery): Json {
    match q
    case ByUrl(url) => Obj(map["kind" := Str("url"), "url" := Str(url)])
    case BySlug(slug, city) => Obj(map["kind" := Str("slug"), "slug" := Str(slug), "city" := Str(city)])
    case ByName(name) => Obj(map["kind" := Str("name"), "name" := Str(name)])
    case NoQuery => Obj(map["kind" := Str("nil")])
  }

  function ConstraintsJson(c: Constraints): Json {
    Obj(map["table_types" := Arr(Strings(Sort(StringLeFn(), c.tableTypes))), "any_table" := Truth(c.anyTable)])
  }

  function TimePrefsJson(w: TimeWindow): Json {
    Obj(map["start" := Str(WallString(w.start)),
            "end" := Str(WallString(w.end)),
            "priority" := Str(PriorityName(w.priority))])
  }

  function GoalJson(g: Goal): Json {
    Obj(map["venue_query" := QueryJson(g.query),
            "date" := Str(DateString(g.date)),
            "party" := Num(g.party),
            "time_prefs" := TimePrefsJson(g.timePrefs),
            "account_id" := Str(g.account),
            "constraints" := ConstraintsJson(g.constraints)])
  }

  function VenueJson(v: Venue): Json {
    Obj(map["provider" := Str(v.provider), "ref" := Str(v.ref), "tz" := Str(TzName(v.tz))])
  }

  function StrategyJson(s: Strategy): Result<Json, PlanError> {
    match s
    case NoStrategy => Ok(Obj(map["tag" := Str("nil")]))
    case Explicit(at) => Ok(Obj(map["tag" := Str("explicit"), "at" := Str(UtcNanos(at))]))
    case Discovered(f, u) =>
      Ok(Obj(map["tag" := Str("discovered"), "probe_from" := Str(UtcNanos(f)), "probe_until" := Str(UtcNanos(u))]))
    case Continuous(u) => Ok(Obj(map["tag" := Str("continuous"), "until" := Str(UtcNanos(u))]))
    case UnknownVariant => Err(StrategyUnknown)
  }

  function Payload(p: Plan, strategy: Json): Json {
    Obj(map["goal" := GoalJson(p.goal),
            "venue" := VenueJson(p.venue),
            "drop_moment" := Str(UtcNanos(p.dropMoment)),
            "strategy" := strategy,
            "fire_schedule" := Arr(Times(p.fireSchedule)),
            "signing_required" := Truth(p.signingRequired)])
  }

  function Envelope(p: Plan, strategy: Json): Json {
    Obj(map["plan_hash_version" := Num(EffectiveVersion(p.version)), "payload" := Payload(p, strategy)])
  }

  /** The bytes a plan has; no others exist for it, whatever order its maps are visited in. */
  ghost function Bytes(p: Plan): Result<string, PlanError> {
    match StrategyJson(p.strategy)
    case Err(e) => Err(e)
    case Ok(s) => Ok(Print(Envelope(p, s)))
  }

  method CanonicalBytes(p: Plan) returns (r: Result<string, PlanError>)
    ensures r == Bytes(p)
  {
    hide Print, Envelope, StrategyJson;
    var s := StrategyJson(p.strategy);
    if s.Err? {
      return Err(s.error);
    }
    var buf := new Buffer();
    WriteCanonical(buf, Envelope(p, s.value));
    assert buf.text == Print(Envelope(p, s.value));
    return Ok(buf.text);
  }

  // What the bytes decide

  /** Earlier, later, or neither. */
  ghost predicate SamePriority(a: int, b: int) { a == b || (a !in {1, 2} && b !in {1, 2}) }

  lemma PriorityNameDecides(a: int, b: int)
    ensures PriorityName(a) == PriorityName(b) <==> SamePriority(a, b)
  {
    assert "earlier"[0] != "later"[0] && "earlier"[0] != "none"[0] && "later"[0] != "none"[0];
  }

  lemma ZoneNameDecides(a: Option<string>, b: Option<string>)
    ensures TzName(a) == TzName(b) <==> a == b || {a, b} == {None, Some("")}
  {
    if {a, b} == {None, Some("")} {
      assert a in {None, Some("")} && b in {None, Some("")};
    }
    if TzName(a) == TzName(b) && a != b {
      assert {a, b} == {None, Some("")};
    }
  }

  ghost predicate SameGoal(g: Goal, h: Goal) {
    && g.query == h.query && g.date == h.date && g.party == h.party && g.account == h.account
    && g.timePrefs.start == h.timePrefs.start && g.timePrefs.end == h.timePrefs.end
    && SamePriority(g.timePrefs.priority, h.timePrefs.priority)
    && multiset(g.constraints.tableTypes) == multiset(h.constraints.tableTypes)
    && g.constraints.anyTable == h.constraints.anyTable
  }

  ghost predicate SameVenue(v: Venue, w: Venue) {
    v.provider == w.provider && v.ref == w.ref && (v.tz == w.tz || {v.tz, w.tz} == {None, Some("")})
  }

  /** What the engine consumes of a plan: everything but its hash, its notes, when it was
      computed, the venue's name and the order of the table types. */
  ghost predicate SamePlan(p: Plan, q: Plan) {
    && (p.version == q.version || (p.version <= 1 && q.version <= 1))
    && SameGoal(p.goal, q.goal) && SameVenue(p.venue, q.venue)
    && p.dropMoment == q.dropMoment && p.strategy == q.strategy
    && p.fireSchedule == q.fireSchedule && p.signingRequired == q.signingRequired
  }

  lemma DateStringUnique(d: Date, e: Date)
    requires DateString(d) == DateString(e)
    ensures d == e
  {
    assert DateString(d) + "" == DateString(d) && DateString(e) + "" == DateString(e);
    DateDigitsUnique(d.year, d.month, d.day, "", e.year, e.month, e.day, "");
  }

  lemma WallStringUnique(v: WallTime, w: WallTime)
    requires WallString(v) == WallString(w)
    ensures v == w
  {
    assert WallString(v) + "" == WallString(v) && WallString(w) + "" == WallString(w);
    ClockDigitsUnique(v.hour, v.minute, v.second, "", w.hour, w.minute, w.second, "");
  }

  lemma StringsUnique(a: seq<string>, b: seq<string>)
    requires Strings(a) == Strings(b)
    ensures a == b
  {
    assert |Strings(a)| == |Strings(b)|;
    forall i | 0 <= i < |a| ensures a[i] == b[i] {
      assert Strings(a)[i] == Strings(b)[i];
    }
  }

  lemma TimesUnique(a: seq<Instant>, b: seq<Instant>)
    requires Times(a) == Times(b)
    ensures a == b
  {
    assert |Times(a)| == |Times(b)|;
    forall i | 0 <= i < |a| ensures a[i] == b[i] {
      assert Times(a)[i] == Times(b)[i];
      UtcNanosUnique(a[i], b[i]);
    }
  }

  lemma QueryUnique(a: VenueQuery, b: VenueQuery)
    ensures QueryJson(a) == QueryJson(b) <==> a == b
  {
    if QueryJson(a) == QueryJson(b) {
      var f, g := QueryJson(a).fields, QueryJson(b).fields;
      assert f["kind"] == g["kind"];
      assert f["kind"].s[0] == g["kind"].s[0] && f["kind"].s[1] == g["kind"].s[1];
      match a
      case ByUrl(_) => assert f["url"] == g["url"];
      case BySlug(_, _) => assert f["slug"] == g["slug"] && f["city"] == g["city"];
      case ByName(_) => assert f["name"] == g["name"];
      case NoQuery =>
    }
  }

  lemma ConstraintsUnique(a: Constraints, b: Constraints)
    ensures ConstraintsJson(a) == ConstraintsJson(b) <==>
            multiset(a.tableTypes) == multiset(b.tableTypes) && a.anyTable == b.anyTable
  {
    StringOrder();
    SortDependsOnMultiset(StringLeFn(), a.tableTypes, b.tableTypes);
    if ConstraintsJson(a) == ConstraintsJson(b) {
      var f, g := ConstraintsJson(a).fields, ConstraintsJson(b).fields;
      assert f["table_types"] == g["table_types"] && f["any_table"] == g["any_table"];
      StringsUnique(Sort(StringLeFn(), a.tableTypes), Sort(StringLeFn(), b.tableTypes));
    }
  }

  lemma TimePrefsUnique(a: TimeWindow, b: TimeWindow)
    ensures TimePrefsJson(a) == TimePrefsJson(b) <==>
            a.start == b.start && a.end == b.end && SamePriority(a.priority, b.priority)
  {
    PriorityNameDecides(a.priority, b.priority);
    hide PriorityName, SamePriority;
    if TimePrefsJson(a) == TimePrefsJson(b) {
      var f, g := TimePrefsJson(a).fields, TimePrefsJson(b).fields;
      assert f["start"] == g["start"] && f["end"] == g["end"] && f["priority"] == g["priority"];
      WallStringUnique(a.start, b.start);
      WallStringUnique(a.end, b.end);
    }
  }

  lemma GoalUnique(a: Goal, b: Goal)
    ensures GoalJson(a) == GoalJson(b) <==> SameGoal(a, b)
  {
    hide QueryJson, ConstraintsJson, TimePrefsJson, DateString;
    QueryUnique(a.query, b.query);
    ConstraintsUnique(a.constraints, b.constraints);
    TimePrefsUnique(a.timePrefs, b.timePrefs);
    if GoalJson(a) == GoalJson(b) {
      var f, g := GoalJson(a).fields, GoalJson(b).fields;
      assert "time_prefs"[0] != "account_id"[0] && "constraints"[0] != "venue_query"[0];
      assert f["venue_query"] == g["venue_query"] && f["date"] == g["date"] && f["party"] == g["party"];
      assert f["time_prefs"] == g["time_prefs"] && f["account_id"] == g["account_id"];
      assert f["constraints"] == g["constraints"];
      DateStringUnique(a.date, b.date);
    }
  }

  lemma VenueUnique(a: Venue, b: Venue)
    ensures VenueJson(a) == VenueJson(b) <==> SameVenue(a, b)
  {
    ZoneNameDecides(a.tz, b.tz);
    hide TzName;
    if VenueJson(a) == VenueJson(b) {
      var f, g := VenueJson(a).fields, VenueJson(b).fields;
      assert f["provider"] == g["provider"] && f["ref"] == g["ref"] && f["tz"] == g["tz"];
    }
  }

  lemma StrategyUnique(a: Strategy, b: Strategy)
    requires StrategyJson(a).Ok? && StrategyJson(b).Ok?
    ensures StrategyJson(a) == StrategyJson(b) <==> a == b
  {
    hide UtcNanos;
    if StrategyJson(a) == StrategyJson(b) {
      var f, g := StrategyJson(a).value.fields, StrategyJson(b).value.fields;
      assert f["tag"] == g["tag"];
      assert f["tag"].s[0] == g["tag"].s[0];
      match a
      case Explicit(at) =>
        assert f["at"] == g["at"];
        UtcNanosUnique(at, b.at);
      case Discovered(x, y) =>
        assert f["probe_from"] == g["probe_from"] && f["probe_until"] == g["probe_until"];
        UtcNanosUnique(x, b.probeFrom);
        UtcNanosUnique(y, b.probeUntil);
      case Continuous(u) =>
        assert f["until"] == g["until"];
        UtcNanosUnique(u, b.until);
      case NoStrategy =>
    }
  }

  lemma PayloadUnique(p: Plan, s: Json, q: Plan, t: Json)
    ensures Payload(p, s) == Payload(q, t) <==>
            && s == t && SameGoal(p.goal, q.goal) && SameVenue(p.venue, q.venue) && p.dropMoment == q.dropMoment
            && p.fireSchedule == q.fireSchedule && p.signingRequired == q.signingRequired
  {
    hide GoalJson, VenueJson, UtcNanos, Times, SameGoal, SameVenue;
    GoalUnique(p.goal, q.goal);
    VenueUnique(p.venue, q.venue);
    if Payload(p, s) == Payload(q, t) {
      var f, g := Payload(p, s).fields, Payload(q, t).fields;
      assert f["goal"] == g["goal"] && f["venue"] == g["venue"] && f["drop_moment"] == g["drop_moment"];
      assert f["strategy"] == g["strategy"] && f["fire_schedule"] == g["fire_schedule"];
      assert f["signing_required"] == g["signing_required"];
      UtcNanosUnique(p.dropMoment, q.dropMoment);
      TimesUnique(p.fireSchedule, q.fireSchedule);
    }
  }

  lemma EnvelopeUnique(p: Plan, s: Json, q: Plan, t: Json)
    ensures Envelope(p, s) == Envelope(q, t) <==>
            EffectiveVersion(p.version) == EffectiveVersion(q.version) && Payload(p, s) == Payload(q, t)
  {
    hide Payload, EffectiveVersion;
    if Envelope(p, s) == Envelope(q, t) {
      var f, g := Envelope(p, s).fields, Envelope(q, t).fields;
      assert f["plan_hash_version"] == g["plan_hash_version"] && f["payload"] == g["payload"];
    }
  }

  lemma KnownBytesDecide(p: Plan, q: Plan)
    requires !p.strategy.UnknownVariant? && !q.strategy.UnknownVariant?
    ensures Bytes(p) == Bytes(q) <==> SamePlan(p, q)
  {
    hide Print, Envelope, Payload, SameGoal, SameVenue;
    var s, t := StrategyJson(p.strategy).value, StrategyJson(q.strategy).value;
    var e, f := Envelope(p, s), Envelope(q, t);
    if Print(e) == Print(f) {
      assert Print(e) + "" == Print(e) && Print(f) + "" == Print(f);
      PrintUnique(e, "", f, "");
    }
    EnvelopeUnique(p, s, q, t);
    PayloadUnique(p, s, q, t);
    StrategyUnique(p.strategy, q.strategy);
  }

  /** Every plan of a known strategy has bytes; equal bytes mean the same plan, and the
      same plan has equal bytes. */
  lemma BytesDecidePlan(p: Plan, q: Plan)
    ensures Bytes(p).Ok? <==> !p.strategy.UnknownVariant?
    ensures Bytes(p).Ok? && Bytes(q).Ok? ==> (Bytes(p) == Bytes(q) <==> SamePlan(p, q))
  {
    hide Print, Envelope, SamePlan;
    if !p.strategy.UnknownVariant? && !q.strategy.UnknownVariant? {
      KnownBytesDecide(p, q);
    }
  }
}
