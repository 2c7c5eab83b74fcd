/** The cache-fronted resolver. The provider may answer differently at different times or
    fail; every answer it gives is in a history the cache is checked against. */
module ResolverCache {
  import opened NameQuery
  import opened Options

  const SECOND: int := 1_000_000_000

  datatype Venue = Venue(provider: string, ref: string, name: string, tz: string)

  datatype SlugKey = SlugKey(slug: string, city: string)

  datatype SlugReply = Found(venue: Venue) | NoSuchVenue | SlugFailure(text: string)

  datatype NameReply = Hits(hits: seq<Venue>) | NameFailure(text: string)

  datatype ResolveError =
    | InvalidURL
    | VenueNotFound
    | Ambiguous(query: string, candidates: seq<Venue>)
    | Upstream(text: string)

  datatype SlugRow = SlugRow(venue: Venue, cachedAt: int)

  datatype NameRow = NameRow(hits: seq<Venue>, cachedAt: int)

  datatype SlugAnswer = SlugAnswer(key: SlugKey, venue: Venue, at: int)

  /** query is what the provider was asked: the trimmed name. An answer's time is the
      clock's reading when the resolver had it. */
  datatype NameAnswer = NameAnswer(query: string, hits: seq<Venue>, at: int)

  /** The tables keep whole seconds. */
  function Seconds(t: int): int { t - t % SECOND }

  /** One hit is the answer, none is not found, and of several all are offered. */
  ghost predicate Picks(query: string, hits: seq<Venue>, r: Result<Venue, ResolveError>) {
    match r
    case Ok(v) => hits == [v]
    case Err(VenueNotFound) => hits == []
    case Err(Ambiguous(q, candidates)) => q == query && candidates == hits && |hits| >= 2
    case _ => false
  }

  function PickFromHits(query: string, hits: seq<Venue>): (r: Result<Venue, ResolveError>)
    ensures Picks(query, hits, r)
  {
    if |hits| == 0 then Err(VenueNotFound)
    else if |hits| == 1 then Ok(hits[0])
    else Err(Ambiguous(query, hits))
  }

  class Clock {
    var now: int

    constructor (start: int)
      ensures now == start
    {
      now := start;
    }

    method Now() returns (t: int)
      modifies this
      ensures t == now >= old(now)
    {
      var dt: int := *;
      if dt > 0 {
        now := now + dt;
      }
      t := now;
    }
  }

  class Resolver {
    const ttl: int
    const lower: char -> char
    const clock: Clock
    var slugs: map<SlugKey, SlugRow>
    var names: map<string, NameRow>
    ghost var slugAnswers: seq<SlugAnswer>
    ghost var nameAnswers: seq<NameAnswer>
    /** The slugs the provider said it does not know. */
    ghost var missing: seq<SlugKey>
    /** How many reads and writes of the cache have failed. */
    ghost var faults: nat

    constructor (ttl: int, lower: char -> char, clock: Clock)
      ensures Valid() && slugs == map[] && names == map[]
      ensures this.clock == clock && this.ttl == ttl && this.lower == lower
    {
      this.ttl, this.lower, this.clock := ttl, lower, clock;
      slugs, names, slugAnswers, nameAnswers, missing, faults := map[], map[], [], [], [], 0;
    }

    method CacheCall() returns (ok: bool)
      modifies this`faults
      ensures faults == old(faults) + if ok then 0 else 1
    {
      ok := *;
      if !ok { faults := faults + 1; }
    }

    /** Every row is an answer the provider gave for its key, stamped with its second. */
    ghost predicate Valid()
      reads this
    {
      && (forall k | k in slugs :: GaveVenue(slugAnswers, k, slugs[k]))
      && (forall q | q in names :: GaveHits(nameAnswers, lower, q, names[q]))
    }

    predicate Stale(cachedAt: int, now: int) { now - cachedAt > ttl }

    /** The provider answers as it likes, after some time. */
    method AskSlug(key: SlugKey) returns (reply: SlugReply)
      modifies clock
      ensures clock.now >= old(clock.now)
    {
      reply := *;
      var later := clock.Now();
    }

    method AskName(query: string) returns (reply: NameReply)
      modifies clock
      ensures clock.now >= old(clock.now)
    {
      reply := *;
      var later := clock.Now();
    }

    /** asked is what the provider said, if it was asked at all; now is the time of the
        staleness test. A row that cannot be read counts as missing. */
    method ResolveSlug(rawSlug: string, rawCity: string)
      returns (r: Result<Venue, ResolveError>, asked: Option<SlugReply>, now: int)
      requires Valid()
      modifies this`slugs, this`slugAnswers, this`missing, this`faults, clock
      ensures faults == old(faults) ==>
              SlugUndisturbed(old(slugs), slugs, SlugKey(TrimSpace(rawSlug), TrimSpace(rawCity)), ttl, now,
                              clock.now, r, asked)
      ensures faults >= old(faults) && Valid() && old(slugAnswers) <= slugAnswers && clock.now >= old(clock.now)
      ensures old(missing) <= missing
      ensures asked == Some(NoSuchVenue) ==> SlugKey(TrimSpace(rawSlug), TrimSpace(rawCity)) in missing
      ensures SlugSpec(old(slugs), SlugKey(TrimSpace(rawSlug), TrimSpace(rawCity)), ttl, now, r, asked)
      ensures asked.Some? && asked.value.Found? ==>
              SlugAnswer(SlugKey(TrimSpace(rawSlug), TrimSpace(rawCity)), asked.value.venue, clock.now) in slugAnswers
      ensures slugs == old(slugs)
           || (asked.Some? && asked.value.Found?
               && slugs == old(slugs)[SlugKey(TrimSpace(rawSlug), TrimSpace(rawCity)) :=
                                        SlugRow(asked.value.venue, Seconds(clock.now))])
    {
      var key := SlugKey(TrimSpace(rawSlug), TrimSpace(rawCity));
      now, asked := clock.now, None;
      if key.slug == "" || key.city == "" {
        return Err(InvalidURL), None, now;
      }
      var readable := CacheCall();
      now := clock.Now();
      if readable && key in slugs && !Stale(slugs[key].cachedAt, now) {
        return Ok(slugs[key].venue), None, now;
      }
      var reply := AskSlug(key);
      asked := Some(reply);
      match reply
      case SlugFailure(text) =>
        return if readable && key in slugs then Ok(slugs[key].venue) else Err(Upstream(text)), asked, now;
      case NoSuchVenue =>
        missing := missing + [key];
        return Err(VenueNotFound), asked, now;
      case Found(v) =>
        var kept := CacheCall();
        var stamp := clock.Now();
        slugAnswers := slugAnswers + [SlugAnswer(key, v, stamp)];
        AnswersGrow(old(slugAnswers), slugAnswers);
        assert slugAnswers[|slugAnswers| - 1] == SlugAnswer(key, v, stamp);
        if kept {
          slugs := slugs[key := SlugRow(v, Seconds(stamp))];
        }
        return Ok(v), asked, now;
    }

    method ResolveName(name: string) returns (r: Result<Venue, ResolveError>, asked: Option<NameReply>, now: int)
      requires Valid()
      modifies this`names, this`nameAnswers, this`faults, clock
      ensures faults == old(faults) ==>
              NameUndisturbed(old(names), names, TrimSpace(name), Normalize(TrimSpace(name), lower), ttl, now,
                              clock.now, r, asked)
      ensures faults >= old(faults) && Valid() && old(nameAnswers) <= nameAnswers && clock.now >= old(clock.now)
      ensures NameSpec(old(names), TrimSpace(name), Normalize(TrimSpace(name), lower), ttl, now, r, asked)
      ensures asked.Some? && asked.value.Hits? ==>
              NameAnswer(TrimSpace(name), asked.value.hits, clock.now) in nameAnswers
      ensures names == old(names)
           || (asked.Some? && asked.value.Hits?
               && var row := NameRow(asked.value.hits, Seconds(clock.now));
                  names == old(names)[Normalize(TrimSpace(name), lower) := row])
    {
      var trimmed := TrimSpace(name);
      now, asked := clock.now, None;
      if trimmed == "" {
        return Err(InvalidURL), None, now;
      }
      var key := Normalize(trimmed, lower);
      var readable := CacheCall();
      now := clock.Now();
      if readable && key in names && !Stale(names[key].cachedAt, now) {
        return PickFromHits(trimmed, names[key].hits), None, now;
      }
      var reply := AskName(trimmed);
      asked := Some(reply);
      match reply
      case NameFailure(text) =>
        r := if readable && key in names then PickFromHits(trimmed, names[key].hits) else Err(Upstream(text));
      case Hits(hits) =>
        var kept := CacheCall();
        var stamp := clock.Now();
        nameAnswers := nameAnswers + [NameAnswer(trimmed, hits, stamp)];
        NameAnswersGrow(old(nameAnswers), nameAnswers, lower);
        assert nameAnswers[|nameAnswers| - 1] == NameAnswer(trimmed, hits, stamp);
        if kept {
          names := names[key := NameRow(hits, Seconds(stamp))];
        }
        return PickFromHits(trimmed, hits), asked, now;
    }
  }

  ghost predicate GaveVenue(answers: seq<SlugAnswer>, key: SlugKey, row: SlugRow) {
    exists i :: 0 <= i < |answers| && answers[i].key == key && answers[i].venue == row.venue
             && Seconds(answers[i].at) == row.cachedAt
  }

  ghost predicate GaveHits(answers: seq<NameAnswer>, lower: char -> char, key: string, row: NameRow) {
    exists i :: 0 <= i < |answers| && Normalize(answers[i].query, lower) == key && answers[i].hits == row.hits
             && Seconds(answers[i].at) == row.cachedAt
  }

  lemma AnswersGrow(was: seq<SlugAnswer>, now: seq<SlugAnswer>)
    requires was <= now
    ensures forall k, row | GaveVenue(was, k, row) :: GaveVenue(now, k, row)
  {
    forall k, row | GaveVenue(was, k, row) ensures GaveVenue(now, k, row) {
      var i :| 0 <= i < |was| && was[i].key == k && was[i].venue == row.venue && Seconds(was[i].at) == row.cachedAt;
      assert now[i] == was[i];
    }
  }

  lemma NameAnswersGrow(was: seq<NameAnswer>, now: seq<NameAnswer>, lower: char -> char)
    requires was <= now
    ensures forall q, row | GaveHits(was, lower, q, row) :: GaveHits(now, lower, q, row)
  {
    forall q, row | GaveHits(was, lower, q, row) ensures GaveHits(now, lower, q, row) {
      var i :| 0 <= i < |was| && Normalize(was[i].query, lower) == q && was[i].hits == row.hits
        && Seconds(was[i].at) == row.cachedAt;
      assert now[i] == was[i];
    }
  }

  /** A slug call, branch by branch: what it answers given the rows and what the provider said. */
  ghost predicate SlugSpec(slugs: map<SlugKey, SlugRow>, key: SlugKey, ttl: int, now: int,
                           r: Result<Venue, ResolveError>, asked: Option<SlugReply>) {
    if key.slug == "" || key.city == "" then r == Err(InvalidURL) && asked.None?
    else match asked
      case None => key in slugs && now - slugs[key].cachedAt <= ttl && r == Ok(slugs[key].venue)
      case Some(Found(v)) => r == Ok(v)
      case Some(NoSuchVenue) => r == Err(VenueNotFound)
      case Some(SlugFailure(text)) => r == Err(Upstream(text)) || (key in slugs && r == Ok(slugs[key].venue))
  }

  /** With a cache that can be read and written: a row within the TTL spares the provider, an
      older one is what a failed provider leaves, and what the provider said is kept. */
  ghost predicate SlugUndisturbed(was: map<SlugKey, SlugRow>, after: map<SlugKey, SlugRow>, key: SlugKey, ttl: int,
                                  now: int, end: int, r: Result<Venue, ResolveError>, asked: Option<SlugReply>) {
    key.slug != "" && key.city != "" ==>
      && (asked.None? <==> key in was && now - was[key].cachedAt <= ttl)
      && (asked.Some? && asked.value.SlugFailure? && key in was ==> r == Ok(was[key].venue))
      && (asked.Some? && asked.value.Found? ==> after == was[key := SlugRow(asked.value.venue, Seconds(end))])
  }

  ghost predicate NameUndisturbed(was: map<string, NameRow>, after: map<string, NameRow>, query: string, key: string,
                                  ttl: int, now: int, end: int, r: Result<Venue, ResolveError>,
                                  asked: Option<NameReply>) {
    query != "" ==>
      && (asked.None? <==> key in was && now - was[key].cachedAt <= ttl)
      && (asked.Some? && asked.value.NameFailure? && key in was ==> Picks(query, was[key].hits, r))
      && (asked.Some? && asked.value.Hits? ==> after == was[key := NameRow(asked.value.hits, Seconds(end))])
  }

  ghost predicate NameSpec(names: map<string, NameRow>, query: string, key: string, ttl: int, now: int,
                           r: Result<Venue, ResolveError>, asked: Option<NameReply>) {
    if query == "" then r == Err(InvalidURL) && asked.None?
    else match asked
      case None => key in names && now - names[key].cachedAt <= ttl && Picks(query, names[key].hits, r)
      case Some(Hits(hits)) => Picks(query, hits, r)
      case Some(NameFailure(text)) =>
        r == Err(Upstream(text)) || (key in names && Picks(query, names[key].hits, r))
  }

  /** All answers so far are those of one fixed directory. */
  ghost predicate FixedVenues(answers: seq<SlugAnswer>, directory: SlugKey -> Option<Venue>) {
    forall i | 0 <= i < |answers| :: directory(answers[i].key) == Some(answers[i].venue)
  }

  ghost predicate FixedHits(answers: seq<NameAnswer>, directory: string -> seq<Venue>, lower: char -> char) {
    forall i | 0 <= i < |answers| :: directory(Normalize(answers[i].query, lower)) == answers[i].hits
  }

  /** Transparency: when the provider is a fixed directory that may fail, a slug call answers
      what the directory holds, and reports a missing venue only when the provider did. */
  lemma SlugCacheTransparent(answers: seq<SlugAnswer>, slugs: map<SlugKey, SlugRow>,
                             directory: SlugKey -> Option<Venue>, key: SlugKey, ttl: int, now: int,
                             r: Result<Venue, ResolveError>, asked: Option<SlugReply>)
    requires FixedVenues(answers, directory) && forall k | k in slugs :: GaveVenue(answers, k, slugs[k])
    requires asked.Some? && asked.value.Found? ==> directory(key) == Some(asked.value.venue)
    requires asked.Some? && asked.value.NoSuchVenue? ==> directory(key) == None
    requires SlugSpec(slugs, key, ttl, now, r, asked)
    ensures r.Ok? ==> directory(key) == Some(r.value)
    ensures r == Err(VenueNotFound) <==> key.slug != "" && key.city != "" && asked == Some(NoSuchVenue)
    ensures r == Err(VenueNotFound) ==> directory(key) == None
  {
    if key in slugs {
      assert GaveVenue(answers, key, slugs[key]);
    }
  }

  /** The same for names, the directory being one of normalized queries; a cached list is
      read with the policy of the call at hand, so not-found and ambiguous agree too. */
  lemma NameCacheTransparent(answers: seq<NameAnswer>, names: map<string, NameRow>, directory: string -> seq<Venue>,
                             lower: char -> char, query: string, ttl: int, now: int,
                             r: Result<Venue, ResolveError>, asked: Option<NameReply>)
    requires FixedHits(answers, directory, lower)
    requires forall q | q in names :: GaveHits(answers, lower, q, names[q])
    requires asked.Some? && asked.value.Hits? ==> directory(Normalize(query, lower)) == asked.value.hits
    requires NameSpec(names, query, Normalize(query, lower), ttl, now, r, asked)
    ensures r.Ok? || (r.Err? && (r.error.VenueNotFound? || r.error.Ambiguous?)) ==>
            var hits := directory(Normalize(query, lower));
            && (r.Ok? <==> |hits| == 1) && (r.Ok? ==> r.value == hits[0])
            && (r == Err(VenueNotFound) <==> |hits| == 0)
            && (r == Err(Ambiguous(query, hits)) <==> |hits| >= 2)
  {
    if Normalize(query, lower) in names {
      assert GaveHits(answers, lower, Normalize(query, lower), names[Normalize(query, lower)]);
    }
  }

  /** A cached answer is served unasked only while the answer behind it is within the TTL. */
  lemma ServedWithinTtl(answers: seq<SlugAnswer>, slugs: map<SlugKey, SlugRow>, key: SlugKey, ttl: int, now: int,
                        r: Result<Venue, ResolveError>)
    requires forall k | k in slugs :: GaveVenue(answers, k, slugs[k])
    requires SlugSpec(slugs, key, ttl, now, r, None) && r.Ok?
    ensures exists i :: 0 <= i < |answers| && answers[i].key == key && answers[i].venue == r.value
                     && now - answers[i].at <= ttl
  {
    assert GaveVenue(answers, key, slugs[key]);
  }

  /** The same for names: the list served is one the provider gave within the TTL. */
  lemma NamesServedWithinTtl(answers: seq<NameAnswer>, names: map<string, NameRow>, lower: char -> char, query: string,
                             ttl: int, now: int, r: Result<Venue, ResolveError>)
    requires forall q | q in names :: GaveHits(answers, lower, q, names[q])
    requires NameSpec(names, query, Normalize(query, lower), ttl, now, r, None) && query != ""
    ensures exists i :: 0 <= i < |answers| && Normalize(answers[i].query, lower) == Normalize(query, lower)
                     && Picks(query, answers[i].hits, r) && now - answers[i].at <= ttl
  {
    assert GaveHits(answers, lower, Normalize(query, lower), names[Normalize(query, lower)]);
  }

  // Runs of calls

  datatype Query = BySlug(slug: string, city: string) | ByName(name: string)

  /** Everything the provider has said agrees with these directories. */
  ghost predicate Consistent(slugAnswers: seq<SlugAnswer>, missing: seq<SlugKey>, nameAnswers: seq<NameAnswer>,
                             venues: SlugKey -> Option<Venue>, hits: string -> seq<Venue>, lower: char -> char) {
    && FixedVenues(slugAnswers, venues) && FixedHits(nameAnswers, hits, lower)
    && forall i | 0 <= i < |missing| :: venues(missing[i]) == None
  }

  /** A call answers as the directories would without a cache, or says that it failed. */
  ghost predicate Uncached(q: Query, r: Result<Venue, ResolveError>,
                           venues: SlugKey -> Option<Venue>, hits: string -> seq<Venue>, lower: char -> char) {
    match q
    case BySlug(slug, city) =>
      && (r.Ok? ==> venues(SlugKey(TrimSpace(slug), TrimSpace(city))) == Some(r.value))
      && (r == Err(VenueNotFound) ==> venues(SlugKey(TrimSpace(slug), TrimSpace(city))) == None)
    case ByName(name) =>
      r.Ok? || r.error.VenueNotFound? || r.error.Ambiguous? ==>
        Picks(TrimSpace(name), hits(Normalize(TrimSpace(name), lower)), r)
  }

  lemma ConsistentBefore(a: seq<SlugAnswer>, a': seq<SlugAnswer>, m: seq<SlugKey>, m': seq<SlugKey>,
                         n: seq<NameAnswer>, n': seq<NameAnswer>,
                         venues: SlugKey -> Option<Venue>, hits: string -> seq<Venue>, lower: char -> char)
    requires a <= a' && m <= m' && n <= n' && Consistent(a', m', n', venues, hits, lower)
    ensures Consistent(a, m, n, venues, hits, lower)
  {
    assert forall i | 0 <= i < |a| :: a[i] == a'[i];
    assert forall i | 0 <= i < |m| :: m[i] == m'[i];
    assert forall i | 0 <= i < |n| :: n[i] == n'[i];
  }

  /** Any run of calls, with the provider failing and the cache unreadable wherever they like:
      if all it said over the run fits fixed directories, every call of the run answered as
      they would without a cache. */
  method AnyLookups(resolver: Resolver, queries: seq<Query>,
                    ghost venues: SlugKey -> Option<Venue>, ghost hits: string -> seq<Venue>)
    returns (answers: seq<Result<Venue, ResolveError>>)
    requires resolver.Valid()
    modifies resolver, resolver.clock
    ensures resolver.Valid() && |answers| == |queries|
    ensures Consistent(resolver.slugAnswers, resolver.missing, resolver.nameAnswers, venues, hits, resolver.lower) ==>
              forall i | 0 <= i < |queries| :: Uncached(queries[i], answers[i], venues, hits, resolver.lower)
  {
    hide Consistent, Uncached;
    answers := [];
    for k := 0 to |queries|
      invariant resolver.Valid() && |answers| == k
      invariant
        Consistent(resolver.slugAnswers, resolver.missing, resolver.nameAnswers, venues, hits, resolver.lower) ==>
          forall i | 0 <= i < k :: Uncached(queries[i], answers[i], venues, hits, resolver.lower)
    {
      ghost var a, m, n := resolver.slugAnswers, resolver.missing, resolver.nameAnswers;
      var r := Lookup(resolver, queries[k], venues, hits);
      if Consistent(resolver.slugAnswers, resolver.missing, resolver.nameAnswers, venues, hits, resolver.lower) {
        ConsistentBefore(a, resolver.slugAnswers, m, resolver.missing, n, resolver.nameAnswers,
                         venues, hits, resolver.lower);
      }
      answers := answers + [r];
    }
  }

  method Lookup(resolver: Resolver, q: Query, ghost venues: SlugKey -> Option<Venue>, ghost hits: string -> seq<Venue>)
    returns (r: Result<Venue, ResolveError>)
    requires resolver.Valid()
    modifies resolver, resolver.clock
    ensures resolver.Valid()
    ensures old(resolver.slugAnswers) <= resolver.slugAnswers && old(resolver.missing) <= resolver.missing
    ensures old(resolver.nameAnswers) <= resolver.nameAnswers
    ensures Consistent(resolver.slugAnswers, resolver.missing, resolver.nameAnswers, venues, hits, resolver.lower) ==>
              Uncached(q, r, venues, hits, resolver.lower)
  {
    hide GaveVenue, GaveHits, SlugSpec, NameSpec;
    ghost var slugs, names, sa, na := resolver.slugs, resolver.names, resolver.slugAnswers, resolver.nameAnswers;
    match q
    case BySlug(slug, city) =>
      var asked, now;
      r, asked, now := resolver.ResolveSlug(slug, city);
      if Consistent(resolver.slugAnswers, resolver.missing, resolver.nameAnswers, venues, hits, resolver.lower) {
        assert FixedVenues(sa, venues) by {
          assert forall i | 0 <= i < |sa| :: sa[i] == resolver.slugAnswers[i];
        }
        SlugCacheTransparent(sa, slugs, venues, SlugKey(TrimSpace(slug), TrimSpace(city)), resolver.ttl, now, r, asked);
      }
    case ByName(name) =>
      var asked, now;
      r, asked, now := resolver.ResolveName(name);
      if Consistent(resolver.slugAnswers, resolver.missing, resolver.nameAnswers, venues, hits, resolver.lower) {
        assert FixedHits(na, hits, resolver.lower) by {
          assert forall i | 0 <= i < |na| :: na[i] == resolver.nameAnswers[i];
        }
        NameCacheTransparent(na, names, hits, resolver.lower, TrimSpace(name), resolver.ttl, now, r, asked);
      }
  }
}
