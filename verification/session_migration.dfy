/** MigratePlaintextSessions: plaintext session tokens become sealed secrets. */
module SessionMigration {
  import opened Counting
  import opened Options
  import opened SealedSecrets

  const TOKEN_KIND := "resy_session_jwt"

  datatype SessionKey = SessionKey(account: string, provider: string)

  /** The tables a migration reads and writes; an account may have no user yet. */
  datatype Tables = Tables(
    sessions: map<SessionKey, string>, accounts: map<string, Option<string>>, users: set<string>, secrets: Table)

  datatype Report = Report(migrated: nat, skipped: nat)

  datatype MigrationError = MissingUser(user: string) | Fault

  /** The rows the SELECT returns. */
  function Rows(t: Tables): set<SessionKey> { set k | k in t.sessions && t.sessions[k] != "" }

  predicate Bound(t: Tables, account: string) {
    account in t.accounts && t.accounts[account].Some? && t.accounts[account].value != ""
  }

  function SlotOf(t: Tables, account: string): Slot
    requires Bound(t, account)
  {
    Slot(t.accounts[account].value, account, TOKEN_KIND)
  }

  /** Accounts of these rows that are bound. */
  ghost function BoundAccounts(t: Tables, rows: set<SessionKey>): set<string> {
    set k | k in rows && Bound(t, k.account) :: k.account
  }

  /** Those of them with no secret yet: the ones to migrate. */
  ghost function FreshAccounts(t: Tables, rows: set<SessionKey>): set<string> {
    set k | k in rows && Bound(t, k.account) && SlotOf(t, k.account) !in t.secrets :: k.account
  }

  /** An account's secret holds the token of one of these rows. */
  ghost predicate HoldsToken(was: Tables, rows: set<SessionKey>, account: string, row: Row, key: nat, version: int)
    requires Bound(was, account)
  {
    && |row.nonce| == NONCE_LEN && row.version == version
    && exists k :: k in rows && k in was.sessions && k.account == account
         && AeadOpen(key, row.nonce, row.box, AssociatedData(SlotOf(was, account))) == Some(was.sessions[k])
  }

  ghost predicate SessionsCleared(was: Tables, rows: set<SessionKey>, now: Tables) {
    && now.sessions.Keys == was.sessions.Keys
    && forall k | k in was.sessions ::
         now.sessions[k] == if k.account in BoundAccounts(was, rows) then "" else was.sessions[k]
  }

  ghost predicate SecretsAdded(was: Tables, rows: set<SessionKey>, now: Tables, key: nat, version: int) {
    && (forall s | s in was.secrets :: s in now.secrets && now.secrets[s] == was.secrets[s])
    && (forall a | a in FreshAccounts(was, rows) ::
          && SlotOf(was, a) in now.secrets && was.accounts[a].value in was.users
          && HoldsToken(was, rows, a, now.secrets[SlotOf(was, a)], key, version))
    && (forall s | s in now.secrets && s !in was.secrets ::
          s.account in FreshAccounts(was, rows) && s == SlotOf(was, s.account))
  }

  /** What the tables are once exactly these rows have been dealt with. */
  ghost predicate Progress(was: Tables, rows: set<SessionKey>, now: Tables, key: nat, version: int) {
    && now.accounts == was.accounts && now.users == was.users
    && SessionsCleared(was, rows, now) && SecretsAdded(was, rows, now, key, version)
  }

  function ClearAccount(sessions: map<SessionKey, string>, account: string): map<SessionKey, string> {
    map k | k in sessions :: if k.account == account then "" else sessions[k]
  }

  lemma ProgressStart(was: Tables, key: nat, version: int)
    ensures Progress(was, {}, was, key, version)
    ensures FreshAccounts(was, {}) == {}
  {
  }

  lemma SkipUnbound(was: Tables, rows: set<SessionKey>, now: Tables, key: nat, version: int, k: SessionKey)
    requires Progress(was, rows, now, key, version) && !Bound(was, k.account)
    ensures Progress(was, rows + {k}, now, key, version)
    ensures FreshAccounts(was, rows + {k}) == FreshAccounts(was, rows)
  {
    assert BoundAccounts(was, rows + {k}) == BoundAccounts(was, rows);
    assert FreshAccounts(was, rows + {k}) == FreshAccounts(was, rows);
    GrowRows(was, rows, now, key, version, k);
  }

  lemma GrowRows(was: Tables, rows: set<SessionKey>, now: Tables, key: nat, version: int, k: SessionKey)
    requires Progress(was, rows, now, key, version)
    ensures forall a | a in FreshAccounts(was, rows) ::
              HoldsToken(was, rows + {k}, a, now.secrets[SlotOf(was, a)], key, version)
  {
    forall a | a in FreshAccounts(was, rows)
      ensures HoldsToken(was, rows + {k}, a, now.secrets[SlotOf(was, a)], key, version)
    {
      assert HoldsToken(was, rows, a, now.secrets[SlotOf(was, a)], key, version);
    }
  }

  /** A slot is taken exactly when it was, or when a row of its account came before. */
  lemma TakenExactly(was: Tables, rows: set<SessionKey>, now: Tables, key: nat, version: int, account: string)
    requires Progress(was, rows, now, key, version) && Bound(was, account)
    ensures SlotOf(was, account) in now.secrets <==>
            SlotOf(was, account) in was.secrets || account in FreshAccounts(was, rows)
  {
  }

  lemma ClearOne(was: Tables, rows: set<SessionKey>, now: Tables, k: SessionKey)
    requires SessionsCleared(was, rows, now) && Bound(was, k.account)
    ensures SessionsCleared(was, rows + {k}, now.(sessions := ClearAccount(now.sessions, k.account)))
  {
    assert BoundAccounts(was, rows + {k}) == BoundAccounts(was, rows) + {k.account};
  }

  lemma SkipTaken(was: Tables, rows: set<SessionKey>, now: Tables, key: nat, version: int, k: SessionKey)
    requires Progress(was, rows, now, key, version) && Bound(was, k.account)
    requires SlotOf(was, k.account) in now.secrets
    ensures Progress(was, rows + {k}, now.(sessions := ClearAccount(now.sessions, k.account)), key, version)
    ensures FreshAccounts(was, rows + {k}) == FreshAccounts(was, rows)
  {
    hide SessionsCleared;
    TakenExactly(was, rows, now, key, version, k.account);
    assert FreshAccounts(was, rows + {k}) == FreshAccounts(was, rows);
    GrowRows(was, rows, now, key, version, k);
    ClearOne(was, rows, now, k);
  }

  lemma AddOne(was: Tables, rows: set<SessionKey>, now: Tables, key: nat, version: int, k: SessionKey, row: Row)
    requires Progress(was, rows, now, key, version) && Bound(was, k.account)
    requires SlotOf(was, k.account) !in now.secrets && was.accounts[k.account].value in was.users
    requires HoldsToken(was, rows + {k}, k.account, row, key, version)
    requires FreshAccounts(was, rows + {k}) == FreshAccounts(was, rows) + {k.account}
    ensures SecretsAdded(was, rows + {k}, now.(secrets := now.secrets[SlotOf(was, k.account) := row]), key, version)
  {
    hide SessionsCleared, FreshAccounts, HoldsToken, Bound;
    GrowRows(was, rows, now, key, version, k);
  }

  lemma SealFresh(was: Tables, rows: set<SessionKey>, now: Tables, key: nat, version: int, k: SessionKey, row: Row)
    requires Progress(was, rows, now, key, version) && Bound(was, k.account) && k in was.sessions
    requires SlotOf(was, k.account) !in now.secrets && was.accounts[k.account].value in was.users
    requires HoldsToken(was, {k}, k.account, row, key, version)
    ensures var slot := SlotOf(was, k.account);
            var after := now.(sessions := ClearAccount(now.sessions, k.account), secrets := now.secrets[slot := row]);
            Progress(was, rows + {k}, after, key, version)
    ensures k.account !in FreshAccounts(was, rows)
    ensures FreshAccounts(was, rows + {k}) == FreshAccounts(was, rows) + {k.account}
  {
    hide SessionsCleared, SecretsAdded;
    TakenExactly(was, rows, now, key, version, k.account);
    assert FreshAccounts(was, rows + {k}) == FreshAccounts(was, rows) + {k.account};
    assert HoldsToken(was, rows + {k}, k.account, row, key, version);
    AddOne(was, rows, now, key, version, k, row);
    ClearOne(was, rows, now, k);
    SessionsOnly(was, rows + {k}, now, row, k);
    SecretsOnly(was, rows + {k}, now, row, k, key, version);
  }

  lemma SessionsOnly(was: Tables, rows: set<SessionKey>, now: Tables, row: Row, k: SessionKey)
    requires Bound(was, k.account)
    requires SessionsCleared(was, rows, now.(sessions := ClearAccount(now.sessions, k.account)))
    ensures SessionsCleared(was, rows, now.(sessions := ClearAccount(now.sessions, k.account),
                                            secrets := now.secrets[SlotOf(was, k.account) := row]))
  {
  }

  lemma SecretsOnly(was: Tables, rows: set<SessionKey>, now: Tables, row: Row, k: SessionKey, key: nat, version: int)
    requires Bound(was, k.account)
    requires SecretsAdded(was, rows, now.(secrets := now.secrets[SlotOf(was, k.account) := row]), key, version)
    ensures SecretsAdded(was, rows, now.(sessions := ClearAccount(now.sessions, k.account),
                                         secrets := now.secrets[SlotOf(was, k.account) := row]), key, version)
  {
    hide FreshAccounts, HoldsToken, Bound;
  }

  /** One turn of the loop, on a row read before the loop began. */
  method MigrateRow(sealer: Sealer, ghost was: Tables, ghost rows: set<SessionKey>, tx: Tables, k: SessionKey,
                    token: string)
    returns (r: Result<(Tables, bool), MigrationError>)
    requires Progress(was, rows, tx, sealer.key.id, sealer.version)
    requires k in Rows(was) && token == was.sessions[k]
    modifies sealer.db`faults
    ensures sealer.db.faults >= old(sealer.db.faults)
    ensures r == Err(Fault) ==> sealer.db.faults > old(sealer.db.faults)
    ensures r.Ok? ==> Progress(was, rows + {k}, r.value.0, sealer.key.id, sealer.version)
    ensures r.Ok? ==> FreshAccounts(was, rows + {k}) == FreshAccounts(was, rows) + if r.value.1 then {k.account} else {}
    ensures r.Ok? && r.value.1 ==> k.account !in FreshAccounts(was, rows)
    ensures r.Err? && r.error.MissingUser? ==> UserMissing(was, r.error.user)
  {
    hide Progress, HoldsToken;
    ghost var key, version := sealer.key.id, sealer.version;
    SameAccounts(was, rows, tx, key, version);
    if !Bound(tx, k.account) {
      SkipUnbound(was, rows, tx, key, version, k);
      return Ok((tx, false));
    }
    var slot := SlotOf(tx, k.account);
    TakenExactly(was, rows, tx, key, version, k.account);
    var ok := sealer.db.Call();
    if !ok {
      return Err(Fault);
    }
    if slot in tx.secrets {
      SkipTaken(was, rows, tx, key, version, k);
      return Ok((tx.(sessions := ClearAccount(tx.sessions, k.account)), false));
    }
    if slot.user !in tx.users {
      return Err(MissingUser(slot.user));
    }
    var nonce := RandomNonce(sealer.db);
    if nonce.None? {
      return Err(Fault);
    }
    var row := SealRow(sealer.key.id, slot, nonce.value, token, sealer.version);
    SealedHolds(was, k, row, key, version);
    SealFresh(was, rows, tx, key, version, k, row);
    return Ok((tx.(sessions := ClearAccount(tx.sessions, k.account), secrets := tx.secrets[slot := row]), true));
  }

  lemma SameAccounts(was: Tables, rows: set<SessionKey>, now: Tables, key: nat, version: int)
    requires Progress(was, rows, now, key, version)
    ensures now.accounts == was.accounts && now.users == was.users
  {
  }

  lemma SealedHolds(was: Tables, k: SessionKey, row: Row, key: nat, version: int)
    requires Bound(was, k.account) && k in was.sessions && |row.nonce| == NONCE_LEN
    requires row == SealRow(key, SlotOf(was, k.account), row.nonce, was.sessions[k], version)
    ensures HoldsToken(was, {k}, k.account, row, key, version)
  {
    assert k in {k};
  }

  lemma CountOne(known: set<string>, account: string, added: bool)
    requires added ==> account !in known
    ensures |known + (if added then {account} else {})| == |known| + if added then 1 else 0
  {
    if !added {
      assert known + {} == known;
    }
  }

  /** The loop, over a private copy of the tables and in whatever order the rows come. */
  method MigrateRows(sealer: Sealer, was: Tables) returns (r: Result<(Tables, Report), MigrationError>)
    modifies sealer.db`faults
    ensures sealer.db.faults >= old(sealer.db.faults)
    ensures r == Err(Fault) ==> sealer.db.faults > old(sealer.db.faults)
    ensures r.Ok? ==> r.value.1 == Expected(was)
    ensures r.Ok? ==> Progress(was, Rows(was), r.value.0, sealer.key.id, sealer.version)
    ensures r.Err? && r.error.MissingUser? ==> UserMissing(was, r.error.user)
  {
    hide Progress, FreshAccounts, UserMissing, Bound, SlotOf;
    var tx, left := was, Rows(was);
    ghost var dealt := {};
    var migrated, skipped := 0, 0;
    ProgressStart(was, sealer.key.id, sealer.version);
    while left != {}
      invariant dealt + left == Rows(was) && dealt !! left && sealer.db.faults >= old(sealer.db.faults)
      invariant Progress(was, dealt, tx, sealer.key.id, sealer.version)
      invariant migrated == |FreshAccounts(was, dealt)| && migrated + skipped == |dealt|
      decreases |left|
    {
      var k :| k in left;
      var next := MigrateRow(sealer, was, dealt, tx, k, was.sessions[k]);
      if next.Err? {
        return Err(next.error);
      }
      CountOne(FreshAccounts(was, dealt), k.account, next.value.1);
      if next.value.1 { migrated := migrated + 1; } else { skipped := skipped + 1; }
      tx, left, dealt := next.value.0, left - {k}, dealt + {k};
    }
    assert dealt == Rows(was);
    return Ok((tx, Report(migrated, skipped)));
  }

  class TokenDb {
    var tables: Tables

    constructor (tables: Tables)
      ensures this.tables == tables
    {
      this.tables := tables;
    }

    /** Exact and atomic: the report counts every row once, the bound accounts without a
        secret get one and no other is touched; a failure or a dry run changes nothing. */
    method Migrate(sealer: Sealer, dryRun: bool) returns (r: Result<Report, MigrationError>)
      modifies this, sealer.db`faults
      ensures r == Err(Fault) ==> sealer.db.faults > old(sealer.db.faults)
      ensures r.Ok? ==> r.value == Expected(old(tables))
      ensures r.Ok? && !dryRun ==>
              Progress(old(tables), Rows(old(tables)), tables, sealer.key.id, sealer.version)
      ensures r.Err? || dryRun ==> tables == old(tables)
      ensures r.Err? && r.error.MissingUser? ==> UserMissing(tables, r.error.user)
    {
      hide *;
      var done := MigrateRows(sealer, tables);
      if done.Err? {
        return Err(done.error);
      }
      if !dryRun {
        var ok := sealer.db.Call();
        if !ok {
          return Err(Fault);
        }
        tables := done.value.0;
      }
      return Ok(done.value.1);
    }
  }

  lemma FreshAtMostRows(t: Tables, rows: set<SessionKey>)
    ensures |FreshAccounts(t, rows)| <= |rows|
  {
    if rows != {} {
      var k :| k in rows;
      FreshAtMostRows(t, rows - {k});
      assert rows == rows - {k} + {k};
      var f, g := FreshAccounts(t, rows), FreshAccounts(t, rows - {k});
      assert f <= g + {k.account};
      SubsetSize(f, g + {k.account});
    }
  }

  /** What a run that ends well reports: it follows from the tables alone. */
  ghost function Expected(t: Tables): Report {
    FreshAtMostRows(t, Rows(t));
    Report(|FreshAccounts(t, Rows(t))|, |Rows(t)| - |FreshAccounts(t, Rows(t))|)
  }

  ghost predicate UserMissing(t: Tables, user: string) {
    user !in t.users && exists k ::
      k in Rows(t) && Bound(t, k.account) && SlotOf(t, k.account) !in t.secrets && t.accounts[k.account].value == user
  }

  lemma OnlyUnboundLeft(was: Tables, now: Tables, key: nat, version: int)
    requires Progress(was, Rows(was), now, key, version)
    ensures forall k | k in Rows(now) :: !Bound(now, k.account)
    ensures FreshAccounts(now, Rows(now)) == {} && BoundAccounts(now, Rows(now)) == {}
  {
    hide SecretsAdded;
    forall k | k in Rows(now) ensures !Bound(now, k.account) {
      assert k in Rows(was);
      assert k.account !in BoundAccounts(was, Rows(was));
    }
  }

  /** A second run finds nothing to migrate and leaves the tables as they are. */
  lemma SecondRunMigratesNone(was: Tables, now: Tables, again: Tables, key: nat, version: int)
    requires Progress(was, Rows(was), now, key, version)
    requires Progress(now, Rows(now), again, key, version)
    ensures Expected(now).migrated == 0 && again == now
    ensures forall k | k in Rows(now) :: !Bound(now, k.account)
  {
    OnlyUnboundLeft(was, now, key, version);
    NothingChanges(now, again, key, version);
  }

  lemma NothingChanges(now: Tables, again: Tables, key: nat, version: int)
    requires Progress(now, Rows(now), again, key, version)
    requires FreshAccounts(now, Rows(now)) == {} && BoundAccounts(now, Rows(now)) == {}
    ensures again == now
  {
    hide FreshAccounts, BoundAccounts, HoldsToken, Rows;
    assert again.sessions == now.sessions;
    assert again.secrets.Keys == now.secrets.Keys;
    assert again.secrets == now.secrets;
  }

  /** All tokens of a migrated account are the same. */
  ghost predicate OneToken(t: Tables, account: string) {
    forall k, l | k in Rows(t) && l in Rows(t) && k.account == l.account == account :: t.sessions[k] == t.sessions[l]
  }

  /** A migrated account opens to the token of each of its rows exactly when they all hold
      the same one; with one session per account they do. */
  lemma TokensSurviveExactly(was: Tables, now: Tables, key: nat, version: int, account: string)
    requires Progress(was, Rows(was), now, key, version) && account in FreshAccounts(was, Rows(was))
    ensures (forall k | k in Rows(was) && k.account == account ::
               OpenRow(key, now.secrets, SlotOf(was, account)) == Ok(was.sessions[k]))
            <==> OneToken(was, account)
    ensures exists k :: k in Rows(was) && k.account == account
              && OpenRow(key, now.secrets, SlotOf(was, account)) == Ok(was.sessions[k])
  {
    var row := now.secrets[SlotOf(was, account)];
    assert HoldsToken(was, Rows(was), account, row, key, version);
    var k :| k in Rows(was) && k in was.sessions && k.account == account
      && AeadOpen(key, row.nonce, row.box, AssociatedData(SlotOf(was, account))) == Some(was.sessions[k]);
    assert OpenRow(key, now.secrets, SlotOf(was, account)) == Ok(was.sessions[k]);
  }

  /** An account with two different tokens loses one of them. */
  lemma SecondTokenLost(was: Tables, now: Tables, key: nat, version: int, k: SessionKey, l: SessionKey)
    requires Progress(was, Rows(was), now, key, version) && k.account in FreshAccounts(was, Rows(was))
    requires k in Rows(was) && l in Rows(was) && k.account == l.account && was.sessions[k] != was.sessions[l]
    ensures exists lost ::
              && lost in Rows(was) && lost.account == k.account
              && OpenRow(key, now.secrets, SlotOf(was, k.account)) != Ok(was.sessions[lost])
              && now.sessions[lost] == ""
  {
    TokensSurviveExactly(was, now, key, version, k.account);
    var lost := if OpenRow(key, now.secrets, SlotOf(was, k.account)) == Ok(was.sessions[k]) then l else k;
    PlaintextCleared(was, now, key, version, lost);
  }

  /** A migration keeps the secrets table healthy, and every secret already there as it was. */
  lemma MigrationKeepsHealth(was: Tables, now: Tables, key: nat, version: int)
    requires Progress(was, Rows(was), now, key, version) && Healthy(was.secrets, key, version)
    ensures Healthy(now.secrets, key, version)
    ensures forall s | s in was.secrets :: OpenRow(key, now.secrets, s) == OpenRow(key, was.secrets, s)
  {
    forall s | s in now.secrets
      ensures OpenRow(key, now.secrets, s).Ok? && now.secrets[s].version == version
    {
      if s !in was.secrets {
        assert HoldsToken(was, Rows(was), s.account, now.secrets[SlotOf(was, s.account)], key, version);
      }
    }
  }

  /** No plaintext of a bound account is left, and no other session changes. */
  lemma PlaintextCleared(was: Tables, now: Tables, key: nat, version: int, k: SessionKey)
    requires Progress(was, Rows(was), now, key, version) && k in was.sessions
    ensures k.account in was.accounts && (exists u :: u != "" && was.accounts[k.account] == Some(u)) ==>
            now.sessions[k] == ""
    ensures !(k.account in was.accounts && exists u :: u != "" && was.accounts[k.account] == Some(u)) ==>
            now.sessions[k] == was.sessions[k]
  {
    if Bound(was, k.account) && was.sessions[k] != "" {
      assert k in Rows(was);
      assert k.account in BoundAccounts(was, Rows(was));
    }
  }
}
