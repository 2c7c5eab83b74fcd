/** The idempotency table: key strings, upserts, and the two-stage lookup. Digests are
    ideal, so a row is keyed by the text that is hashed. */
module IdempotencyStore {
  import opened Text

  const MILLI: int := 1_000_000
  const TTL: int := 24 * 3600 * 1000 * MILLI

  predicate NoColon(s: string) { ':' !in s }

  function PlainText(user: string, scope: string, key: string): string { user + (":" + (scope + (":" + key))) }

  function KeyText(user: string, scope: string, key: string, payload: string): string {
    user + (":" + (scope + (":" + (key + (":" + payload)))))
  }

  /** Only the caller's own key may hold colons: the four parts can be read back. */
  lemma KeyTextInjective(u: string, c: string, k: string, p: string, u': string, c': string, k': string, p': string)
    requires NoColon(u) && NoColon(u') && NoColon(c) && NoColon(c') && NoColon(p) && NoColon(p')
    ensures KeyText(u, c, k, p) == KeyText(u', c', k', p') <==> u == u' && c == c' && k == k' && p == p'
  {
    if KeyText(u, c, k, p) == KeyText(u', c', k', p') {
      SplitAtFirst(u, c + (":" + (k + (":" + p))), u', c' + (":" + (k' + (":" + p'))), ':');
      SplitAtFirst(c, k + (":" + p), c', k' + (":" + p'), ':');
      SplitAtLast(k, p, k', p', ':');
    }
  }

  lemma PlainTextInjective(u: string, c: string, k: string, u': string, c': string, k': string)
    requires NoColon(u) && NoColon(u') && NoColon(c) && NoColon(c')
    ensures PlainText(u, c, k) == PlainText(u', c', k') <==> u == u' && c == c' && k == k'
  {
    if PlainText(u, c, k) == PlainText(u', c', k') {
      SplitAtFirst(u, c + (":" + k), u', c' + (":" + k'), ':');
      SplitAtFirst(c, k, c', k', ':');
    }
  }

  // The table

  /** error is empty for a success. */
  datatype Entry = Entry(user: string, scope: string, plain: string, target: string, error: string,
                         created: int, expires: int)

  type Table = map<string, Entry>

  /** Times are stored to the millisecond. */
  function Millis(t: int): int { t - t % MILLI }

  function NewEntry(user: string, scope: string, key: string, target: string, error: string, now: int): Entry {
    Entry(user, scope, PlainText(user, scope, key), target, error, Millis(now), Millis(now + TTL))
  }

  function Put(t: Table, user: string, scope: string, key: string, payload: string,
               target: string, error: string, now: int): Table {
    t[KeyText(user, scope, key, payload) := NewEntry(user, scope, key, target, error, now)]
  }

  predicate Live(e: Entry, now: int) { now < e.expires }

  predicate SameKey(e: Entry, user: string, scope: string, key: string) {
    e.user == user && e.scope == scope && e.plain == PlainText(user, scope, key)
  }

  /** Every row has the same retention and sits under its own user's keys. */
  ghost predicate Sound(t: Table) {
    forall k | k in t :: t[k].expires == t[k].created + TTL && Before(k, ':') == t[k].user
  }

  lemma PutKeepsSound(t: Table, user: string, scope: string, key: string, payload: string,
                      target: string, error: string, now: int)
    requires Sound(t) && NoColon(user)
    ensures Sound(Put(t, user, scope, key, payload, target, error, now))
  {
    assert TTL % MILLI == 0;
    assert (now + TTL) % MILLI == now % MILLI;
    BeforeOf(user, ':', scope + (":" + (key + (":" + payload))));
  }

  /** found, payloadMatch and expired as the source's lookup has them. */
  datatype Lookup = Lookup(found: bool, payloadMatch: bool, expired: bool, target: string, error: string)

  /** The row ORDER BY created_at DESC LIMIT 1 may pick. */
  ghost predicate Newest(t: Table, user: string, scope: string, key: string, k: string) {
    && k in t && SameKey(t[k], user, scope, key)
    && forall j | j in t && SameKey(t[j], user, scope, key) :: t[j].created <= t[k].created
  }

  /** One of the newest rows of a key, if it has any: a scan that keeps the best so far. */
  method NewestRow(t: Table, user: string, scope: string, key: string) returns (found: bool, k: string)
    ensures found <==> exists j :: j in t && SameKey(t[j], user, scope, key)
    ensures found ==> Newest(t, user, scope, key, k)
  {
    found, k := false, "";
    var left := t.Keys;
    while left != {}
      invariant left <= t.Keys
      invariant found <==> exists j :: j in t && j !in left && SameKey(t[j], user, scope, key)
      invariant found ==> k in t && SameKey(t[k], user, scope, key)
      invariant found ==>
        forall j | j in t && j !in left && SameKey(t[j], user, scope, key) :: t[j].created <= t[k].created
      decreases |left|
    {
      var j :| j in left;
      if SameKey(t[j], user, scope, key) && (!found || t[k].created < t[j].created) {
        found, k := true, j;
      }
      left := left - {j};
    }
  }

  method GetResult(t: Table, user: string, scope: string, key: string, payload: string, now: int) returns (r: Lookup)
    requires Sound(t)
    ensures Decision(r) == Decide(t, user, scope, key, payload, now)
  {
    var exact := KeyText(user, scope, key, payload);
    if exact in t && t[exact].user == user {
      return Lookup(true, true, !Live(t[exact], now), t[exact].target, t[exact].error);
    }
    var found, k := NewestRow(t, user, scope, key);
    if !found {
      return Lookup(false, false, false, "", "");
    }
    NewestLiveIffAnyLive(t, user, scope, key, now, k);
    return Lookup(true, false, !Live(t[k], now), t[k].target, t[k].error);
  }

  /** What the service makes of a lookup. */
  datatype Verdict = Fresh | Replay(target: string, error: string) | Conflict

  function Decision(r: Lookup): Verdict {
    if !r.found || r.expired then Fresh
    else if !r.payloadMatch then Conflict
    else Replay(r.target, r.error)
  }

  ghost predicate KeyInUse(t: Table, user: string, scope: string, key: string, now: int) {
    exists k :: k in t && SameKey(t[k], user, scope, key) && Live(t[k], now)
  }

  /** The verdict on a call, from the table alone: its own live row replays, its own expired
      row starts afresh whatever else is there, and without a row of its own any live row of
      the key is a conflict. */
  ghost function Decide(t: Table, user: string, scope: string, key: string, payload: string, now: int): Verdict {
    var exact := KeyText(user, scope, key, payload);
    if exact in t && t[exact].user == user then
      if Live(t[exact], now) then Replay(t[exact].target, t[exact].error) else Fresh
    else if KeyInUse(t, user, scope, key, now) then Conflict
    else Fresh
  }

  lemma NewestLiveIffAnyLive(t: Table, user: string, scope: string, key: string, now: int, k: string)
    requires Sound(t) && Newest(t, user, scope, key, k)
    ensures Live(t[k], now) <==> KeyInUse(t, user, scope, key, now)
  {
  }

  /** A stored outcome is replayed exactly until its expiry, which falls less than a
      millisecond short of 24 hours. */
  lemma ReplayedExactlyUntil(t: Table, user: string, scope: string, key: string, payload: string,
                             target: string, error: string, at: int, now: int)
    ensures var t' := Put(t, user, scope, key, payload, target, error, at);
            Decide(t', user, scope, key, payload, now) ==
            if now < Millis(at + TTL) then Replay(target, error) else Fresh
    ensures at + TTL - MILLI < Millis(at + TTL) <= at + TTL
  {
  }

  /** Once its own row has expired a call starts afresh even while another payload's row under
      the same key is live, where a call without a row of its own would conflict. */
  lemma ExpiredRowHidesConflict(user: string, key: string, p: string, q: string, r: string, scope: string)
    requires NoColon(p) && NoColon(q) && NoColon(r) && p != q && r != p && r != q && NoColon(user) && NoColon(scope)
    ensures var t := Put(Put(map[], user, scope, key, p, "a", "", 0), user, scope, key, q, "b", "", TTL);
            && Decide(t, user, scope, key, p, TTL) == Fresh
            && Decide(t, user, scope, key, r, TTL) == Conflict
  {
    KeyTextInjective(user, scope, key, p, user, scope, key, q);
    KeyTextInjective(user, scope, key, r, user, scope, key, p);
    KeyTextInjective(user, scope, key, r, user, scope, key, q);
    var t := Put(Put(map[], user, scope, key, p, "a", "", 0), user, scope, key, q, "b", "", TTL);
    assert Live(t[KeyText(user, scope, key, q)], TTL);
    assert SameKey(t[KeyText(user, scope, key, q)], user, scope, key);
  }

  /** While some row of a key is live, a call under it goes through afresh exactly when it has
      a row of its own that has expired; otherwise it is a replay or a conflict. */
  lemma ConflictHiddenExactly(t: Table, user: string, scope: string, key: string, payload: string, now: int)
    requires KeyInUse(t, user, scope, key, now)
    ensures Decide(t, user, scope, key, payload, now) == Fresh <==>
            var own := KeyText(user, scope, key, payload); own in t && t[own].user == user && !Live(t[own], now)
  {
  }

  /** No live row is lost or changed. */
  ghost predicate KeepsLive(was: Table, after: Table, now: int) {
    forall k | k in was && Live(was[k], now) :: k in after && after[k] == was[k]
  }

  lemma PutKeepsLive(t: Table, user: string, scope: string, key: string, payload: string,
                     target: string, error: string, now: int)
    requires Sound(t) && NoColon(user) && Decide(t, user, scope, key, payload, now) == Fresh
    ensures KeepsLive(t, Put(t, user, scope, key, payload, target, error, now), now)
  {
    BeforeOf(user, ':', scope + (":" + (key + (":" + payload))));
  }

  lemma KeepsLiveLater(a: Table, b: Table, c: Table, s: int, t: int)
    requires KeepsLive(a, b, s) && KeepsLive(b, c, t) && s <= t
    ensures KeepsLive(a, c, t)
  {
  }

  /** The sweep: rows at or before the cutoff go, and no live row is among them. */
  function Prune(t: Table, now: int): Table { map k | k in t && Millis(now) < t[k].expires :: t[k] }

  lemma PruneKeepsLive(t: Table, user: string, scope: string, key: string, payload: string, now: int)
    requires Sound(t)
    ensures Sound(Prune(t, now)) && KeepsLive(t, Prune(t, now), now)
    ensures Decide(t, user, scope, key, payload, now) != Fresh ==>
            Decide(Prune(t, now), user, scope, key, payload, now) == Decide(t, user, scope, key, payload, now)
  {
    var t' := Prune(t, now);
    if KeyInUse(t, user, scope, key, now) {
      var k :| k in t && SameKey(t[k], user, scope, key) && Live(t[k], now);
      assert k in t' && t'[k] == t[k];
    }
  }
}
