/** Sealed secrets under an ideal AEAD: a box opens with its own key, nonce and
    associated data, and with nothing else. */
module SealedSecrets {
  import opened Options
  import opened Text

  const NONCE_LEN: nat := 12
  const SEPARATOR: char := '\U{1F}'

  /** What aead.Seal returns. */
  datatype Box = Box(key: nat, nonce: string, ad: string, plaintext: string)

  function AeadOpen(key: nat, nonce: string, box: Box, ad: string): Option<string> {
    if box.key == key && box.nonce == nonce && box.ad == ad then Some(box.plaintext) else None
  }

  /** The primary key of the secrets table. */
  datatype Slot = Slot(user: string, account: string, kind: string)

  datatype Row = Row(box: Box, nonce: string, version: int)

  datatype SecretError = BadArgument | NotFound | Tampered | MixedVersion | StoreFault

  predicate ValidKind(kind: string) { kind == "resy_password" || kind == "resy_session_jwt" }

  predicate Acceptable(s: Slot) { s.user != "" && s.account != "" && ValidKind(s.kind) }

  /** The arguments the sealer turns down. */
  ghost predicate Malformed(s: Slot) {
    s.user == "" || s.account == "" || s.kind !in {"resy_password", "resy_session_jwt"}
  }

  function AssociatedData(s: Slot): string {
    s.user + ([SEPARATOR] + (s.account + ([SEPARATOR] + s.kind)))
  }

  predicate Plain(s: string) { SEPARATOR !in s }

  // The encoding

  /** Where a separator does no harm: first in the user id, or last in the account id. */
  predicate WellBound(s: Slot)
    requires s.user != "" && s.account != ""
  {
    Plain(s.user[1..]) && Plain(s.account[..|s.account| - 1])
  }

  lemma KindIsPlain(kind: string)
    requires ValidKind(kind)
    ensures Plain(kind)
  {
  }

  lemma Regroup(u: string, a: string, k: string)
    ensures AssociatedData(Slot(u, a, k)) == (u + ([SEPARATOR] + a)) + ([SEPARATOR] + k)
  {
    Reassociate(u, [SEPARATOR] + a, [SEPARATOR] + k);
    Reassociate([SEPARATOR], a, [SEPARATOR] + k);
  }

  /** A separator anywhere else makes room for a second slot with the same bytes. */
  lemma SeparatorBreaksBinding(s: Slot) returns (t: Slot)
    requires Acceptable(s) && !WellBound(s)
    ensures Acceptable(t) && t != s && AssociatedData(t) == AssociatedData(s)
  {
    if !Plain(s.user[1..]) {
      var i :| 0 <= i < |s.user| - 1 && s.user[1..][i] == SEPARATOR;
      var u, v := s.user[..i + 1], s.user[i + 2..];
      t := Slot(u, v + ([SEPARATOR] + s.account), s.kind);
      assert s.user == u + ([SEPARATOR] + v);
      Reassociate(u, [SEPARATOR] + v, [SEPARATOR] + s.account);
      Reassociate([SEPARATOR], v, [SEPARATOR] + s.account);
    } else {
      var j :| 0 <= j < |s.account| - 1 && s.account[..|s.account| - 1][j] == SEPARATOR;
      var a, b := s.account[..j], s.account[j + 1..];
      t := Slot(s.user + ([SEPARATOR] + a), b, s.kind);
      assert s.account == a + ([SEPARATOR] + b);
      Reassociate(s.user, [SEPARATOR] + a, [SEPARATOR] + b);
      Reassociate([SEPARATOR], a, [SEPARATOR] + b);
    }
    Regroup(s.user, s.account, s.kind);
    Regroup(t.user, t.account, t.kind);
  }

  /** A well bound slot shares its bytes with no other acceptable slot. */
  lemma AssociatedDataInjective(s: Slot, t: Slot)
    requires Acceptable(s) && Acceptable(t) && WellBound(s)
    ensures AssociatedData(s) == AssociatedData(t) <==> s == t
  {
    if AssociatedData(s) == AssociatedData(t) {
      Regroup(s.user, s.account, s.kind);
      Regroup(t.user, t.account, t.kind);
      KindIsPlain(s.kind);
      KindIsPlain(t.kind);
      SplitAtLast(s.user + ([SEPARATOR] + s.account), s.kind, t.user + ([SEPARATOR] + t.account), t.kind, SEPARATOR);
      SameIds(s, t);
    }
  }

  lemma SameIds(s: Slot, t: Slot)
    requires Acceptable(s) && Acceptable(t) && WellBound(s)
    requires s.user + ([SEPARATOR] + s.account) == t.user + ([SEPARATOR] + t.account)
    ensures s.user == t.user && s.account == t.account
  {
    var x, y := s.user + ([SEPARATOR] + s.account), t.user + ([SEPARATOR] + t.account);
    assert y[|t.user|] == SEPARATOR;
    if |t.user| < |s.user| {
      assert false;
    } else if |t.user| > |s.user| {
      assert false;
    } else {
      assert x[..|s.user|] == s.user && y[..|t.user|] == t.user;
      assert x[|s.user| + 1..] == s.account && y[|t.user| + 1..] == t.account;
    }
  }

  /** The bytes bind a slot that Seal accepts exactly then. */
  lemma BoundExactly(s: Slot)
    requires Acceptable(s)
    ensures (forall t | Acceptable(t) && AssociatedData(t) == AssociatedData(s) :: t == s) <==> WellBound(s)
  {
    if WellBound(s) {
      forall t | Acceptable(t) && AssociatedData(t) == AssociatedData(s) ensures t == s {
        AssociatedDataInjective(s, t);
      }
    } else {
      var t := SeparatorBreaksBinding(s);
    }
  }

  /** A row copied to another slot fails the check there, whichever slot Seal accepts that is,
      exactly when its own slot is well bound. */
  lemma MovedRowIsTampered(key: nat, row: Row, from: Slot)
    requires Acceptable(from) && AeadOpen(key, row.nonce, row.box, AssociatedData(from)).Some?
    ensures (forall to | Acceptable(to) && to != from :: AeadOpen(key, row.nonce, row.box, AssociatedData(to)) == None)
            <==> WellBound(from)
  {
    BoundExactly(from);
    if WellBound(from) {
      forall to | Acceptable(to) && to != from ensures AeadOpen(key, row.nonce, row.box, AssociatedData(to)) == None {
        AssociatedDataInjective(from, to);
      }
    } else {
      var to := SeparatorBreaksBinding(from);
      assert AeadOpen(key, row.nonce, row.box, AssociatedData(to)).Some?;
    }
  }

  // The table

  type Table = map<Slot, Row>

  /** What Open says of a slot. */
  function OpenRow(key: nat, table: Table, s: Slot): Result<string, SecretError> {
    if s !in table then Err(NotFound)
    else if |table[s].nonce| != NONCE_LEN then Err(StoreFault)
    else match AeadOpen(key, table[s].nonce, table[s].box, AssociatedData(s))
      case Some(p) => Ok(p)
      case None => Err(Tampered)
  }

  /** Every row opens under this key and carries this version. */
  ghost predicate Healthy(table: Table, key: nat, version: int) {
    forall s | s in table :: OpenRow(key, table, s).Ok? && table[s].version == version
  }

  ghost function Plaintexts(table: Table): map<Slot, string> {
    map s | s in table :: table[s].box.plaintext
  }

  lemma OpenGivesPlaintext(table: Table, key: nat, version: int, s: Slot)
    requires Healthy(table, key, version)
    ensures OpenRow(key, table, s) == if s in Plaintexts(table) then Ok(Plaintexts(table)[s]) else Err(NotFound)
  {
  }

  function SealRow(key: nat, s: Slot, nonce: string, plaintext: string, version: int): Row {
    Row(Box(key, nonce, AssociatedData(s), plaintext), nonce, version)
  }

  lemma SealedRowOpens(key: nat, s: Slot, nonce: string, plaintext: string, version: int)
    ensures AeadOpen(key, nonce, SealRow(key, s, nonce, plaintext, version).box, AssociatedData(s)) == Some(plaintext)
  {
  }

  class Database {
    var secrets: Table
    var activeVersion: int
    /** How many calls of the database and of the random source have failed. */
    ghost var faults: nat

    constructor (version: int)
      ensures secrets == map[] && activeVersion == version && faults == 0
    {
      secrets, activeVersion, faults := map[], version, 0;
    }

    method Call() returns (ok: bool)
      modifies this`faults
      ensures faults == old(faults) + if ok then 0 else 1
    {
      ok := *;
      if !ok { faults := faults + 1; }
    }
  }

  /** A locked buffer; Close wipes it. */
  class Key {
    const id: nat
    var wiped: bool

    constructor (id: nat)
      ensures this.id == id && !wiped
    {
      this.id, wiped := id, false;
    }

    method Close()
      modifies this
      ensures wiped
    {
      wiped := true;
    }
  }

  /** crypto/rand: a nonce of the right length, or a failure. */
  method RandomNonce(db: Database) returns (nonce: Option<string>)
    modifies db`faults
    ensures nonce.Some? ==> |nonce.value| == NONCE_LEN
    ensures db.faults >= old(db.faults) && (nonce.None? ==> db.faults > old(db.faults))
  {
    var drawn: string := *;
    if |drawn| == NONCE_LEN { return Some(drawn); }
    nonce := None;
    db.faults := db.faults + 1;
  }

  class Sealer {
    const db: Database
    var key: Key
    var version: int

    constructor (db: Database, key: Key)
      ensures this.db == db && this.key == key && version == db.activeVersion
    {
      this.db, this.key, version := db, key, db.activeVersion;
    }

    /** The invariant of every sequential history. */
    ghost predicate Valid()
      reads this, db, key
    {
      !key.wiped && db.activeVersion == version && Healthy(db.secrets, key.id, version)
    }

    ghost function View(): map<Slot, string>
      reads this, db
    {
      Plaintexts(db.secrets)
    }

    method Seal(s: Slot, plaintext: string) returns (r: Result<(), SecretError>)
      requires Valid()
      modifies db`secrets, db`faults
      ensures Valid() && db.faults >= old(db.faults)
      ensures r == Err(StoreFault) ==> db.faults > old(db.faults)
      ensures r.Ok? ==> Acceptable(s) && View() == old(View())[s := plaintext]
      ensures r.Err? ==> db.secrets == old(db.secrets)
      ensures Malformed(s) <==> r == Err(BadArgument)
      ensures r.Err? ==> r.error == BadArgument || r.error == StoreFault
    {
      if !Acceptable(s) {
        return Err(BadArgument);
      }
      var nonce := RandomNonce(db);
      if nonce.None? {
        return Err(StoreFault);
      }
      var ok := db.Call();
      if !ok {
        return Err(StoreFault);
      }
      db.secrets := db.secrets[s := SealRow(key.id, s, nonce.value, plaintext, version)];
      return Ok(());
    }

    method Open(s: Slot) returns (r: Result<string, SecretError>)
      requires Valid()
      modifies db`faults
      ensures r == Err(StoreFault) ==> db.faults > old(db.faults)
      ensures r == Err(StoreFault)
           || r == if Malformed(s) then Err(BadArgument)
                   else if s in View() then Ok(View()[s]) else Err(NotFound)
    {
      if !Acceptable(s) {
        return Err(BadArgument);
      }
      var ok := db.Call();
      if !ok {
        return Err(StoreFault);
      }
      OpenGivesPlaintext(db.secrets, key.id, version, s);
      return OpenRow(key.id, db.secrets, s);
    }

    method Delete(s: Slot) returns (r: Result<(), SecretError>)
      requires Valid()
      modifies db`secrets, db`faults
      ensures Valid() && db.faults >= old(db.faults)
      ensures r == Err(StoreFault) ==> db.faults > old(db.faults)
      ensures r.Ok? ==> Acceptable(s) && s in old(View()) && View() == old(View()) - {s}
      ensures r.Err? ==> db.secrets == old(db.secrets)
      ensures r == Err(NotFound) ==> s !in View()
      ensures Malformed(s) <==> r == Err(BadArgument)
      ensures r.Err? ==> r.error in {BadArgument, NotFound, StoreFault}
    {
      if !Acceptable(s) {
        return Err(BadArgument);
      }
      var ok := db.Call();
      if !ok {
        return Err(StoreFault);
      }
      if s !in db.secrets {
        return Err(NotFound);
      }
      db.secrets := db.secrets - {s};
      return Ok(());
    }

    /** Re-encrypts one row; fails on a row the old key does not open. */
    method Reseal(tx: Table, s: Slot, newKey: nat, newVersion: int) returns (r: Option<Table>)
      requires s in tx
      modifies db`faults
      ensures db.faults >= old(db.faults)
      ensures r.None? ==>
              AeadOpen(key.id, tx[s].nonce, tx[s].box, AssociatedData(s)).None? || db.faults > old(db.faults)
      ensures r.Some? ==> AeadOpen(key.id, tx[s].nonce, tx[s].box, AssociatedData(s)).Some?
      ensures r.Some? ==> r.value.Keys == tx.Keys && forall t | t in tx && t != s :: r.value[t] == tx[t]
      ensures r.Some? ==> Resealed(s, tx[s], r.value[s], newKey, newVersion)
    {
      var plaintext := AeadOpen(key.id, tx[s].nonce, tx[s].box, AssociatedData(s));
      if plaintext.None? {
        return None;
      }
      var nonce := RandomNonce(db);
      if nonce.None? {
        return None;
      }
      var ok := db.Call();
      if !ok {
        return None;
      }
      SealedRowOpens(newKey, s, nonce.value, plaintext.value, newVersion);
      return Some(tx[s := SealRow(newKey, s, nonce.value, plaintext.value, newVersion)]);
    }

    /** Re-encrypts every row of the transaction's table, in whatever order they come. */
    method ResealAll(was: Table, newKey: nat, newVersion: int) returns (r: Option<Table>)
      modifies db`faults
      ensures db.faults >= old(db.faults) && (r.None? ==> Unopened(was, key.id) || db.faults > old(db.faults))
      ensures r.Some? ==> Rotated(key.id, was, newKey, r.value, newVersion)
    {
      var tx := was;
      var batch := was.Keys;
      while batch != {}
        invariant batch <= tx.Keys == was.Keys && db.faults >= old(db.faults)
        invariant forall s | s in batch :: tx[s] == was[s]
        invariant forall s | s in was && s !in batch ::
          && Resealed(s, was[s], tx[s], newKey, newVersion)
          && AeadOpen(key.id, was[s].nonce, was[s].box, AssociatedData(s)).Some?
        decreases |batch|
      {
        var s :| s in batch;
        var next := Reseal(tx, s, newKey, newVersion);
        if next.None? {
          return None;
        }
        tx, batch := next.value, batch - {s};
      }
      return Some(tx);
    }

    /** Every row moves to the new key and the next version, or nothing changes at all.
        Success needs every row to open under the old key, whatever versions they carry. */
    method Rotate(newKey: Key) returns (r: Result<(), SecretError>)
      requires newKey != key
      modifies this`key, this`version, db, key, newKey
      ensures r.Ok? ==>
              && key == newKey && old(key).wiped && !newKey.wiped && !old(newKey.wiped)
              && version == old(version) + 1 == db.activeVersion
              && Rotated(old(key.id), old(db.secrets), newKey.id, db.secrets, version)
      ensures db.faults >= old(db.faults) && (r == Err(BadArgument) <==> old(newKey.wiped))
      ensures r.Err? && !old(newKey.wiped) ==>
              r == Err(StoreFault) && (Unopened(old(db.secrets), old(key.id)) || db.faults > old(db.faults))
      ensures r.Err? ==>
              && key == old(key) && key.wiped == old(key.wiped) && newKey.wiped
              && version == old(version) && db.activeVersion == old(db.activeVersion)
              && db.secrets == old(db.secrets)
    {
      if newKey.wiped {
        return Err(BadArgument);
      }
      var tx := ResealAll(db.secrets, newKey.id, version + 1);
      var ok := false;
      if tx.Some? {
        ok := db.Call();
      }
      if !ok {
        newKey.Close();
        return Err(StoreFault);
      }
      db.secrets, db.activeVersion := tx.value, version + 1;
      var was := key;
      key, version := newKey, version + 1;
      was.Close();
      return Ok(());
    }

    /** The rows whose version is not the active one. */
    method CheckMixedVersion() returns (stale: set<Slot>)
      ensures stale == set s | s in db.secrets && db.secrets[s].version != db.activeVersion
      ensures Valid() ==> stale == {}
    {
      stale := {};
      var left := db.secrets.Keys;
      while left != {}
        invariant left <= db.secrets.Keys
        invariant stale == set s | s in db.secrets && s !in left && db.secrets[s].version != db.activeVersion
        decreases |left|
      {
        var s :| s in left;
        if db.secrets[s].version != db.activeVersion {
          stale := stale + {s};
        }
        left := left - {s};
      }
    }
  }

  /** Some row does not open under the key. */
  ghost predicate Unopened(table: Table, key: nat) {
    exists s :: s in table && AeadOpen(key, table[s].nonce, table[s].box, AssociatedData(s)).None?
  }

  ghost predicate Resealed(s: Slot, was: Row, now: Row, newKey: nat, newVersion: int) {
    && |now.nonce| == NONCE_LEN && now.version == newVersion
    && AeadOpen(newKey, now.nonce, now.box, AssociatedData(s)) == Some(was.box.plaintext)
  }

  ghost predicate Rotated(oldKey: nat, was: Table, newKey: nat, now: Table, newVersion: int) {
    && now.Keys == was.Keys
    && forall s | s in was ::
         && AeadOpen(oldKey, was[s].nonce, was[s].box, AssociatedData(s)).Some?
         && Resealed(s, was[s], now[s], newKey, newVersion)
  }

  /** A rotation keeps every plaintext and leaves every row at the new version and key. */
  lemma RotationKeepsPlaintexts(oldKey: nat, was: Table, newKey: nat, now: Table, newVersion: int)
    requires Rotated(oldKey, was, newKey, now, newVersion)
    ensures Plaintexts(now) == Plaintexts(was) && Healthy(now, newKey, newVersion)
    ensures forall s | OpenRow(oldKey, was, s).Ok? :: OpenRow(newKey, now, s) == OpenRow(oldKey, was, s)
  {
    forall s | s in was ensures now[s].box.plaintext == was[s].box.plaintext {
      assert Resealed(s, was[s], now[s], newKey, newVersion);
    }
  }

  /** The old key opens nothing of a rotated table. */
  lemma OldKeyIsUseless(oldKey: nat, was: Table, newKey: nat, now: Table, newVersion: int, s: Slot)
    requires Rotated(oldKey, was, newKey, now, newVersion) && oldKey != newKey
    ensures OpenRow(oldKey, now, s).Err?
  {
    if s in was {
      assert Resealed(s, was[s], now[s], newKey, newVersion);
    }
  }

  // Histories

  datatype Command = Put(slot: Slot, plaintext: string) | Remove(slot: Slot) | NewKey(id: nat)

  /** What a list of commands should leave behind, given which of them succeeded. */
  function Replay(view: map<Slot, string>, commands: seq<Command>, done: seq<bool>): map<Slot, string>
    requires |done| == |commands|
  {
    if commands == [] then view
    else
      var n := |commands| - 1;
      var v := Replay(view, commands[..n], done[..n]);
      if !done[n] then v
      else match commands[n]
        case Put(s, p) => v[s := p]
        case Remove(s) => v - {s}
        case NewKey(_) => v
  }

  predicate Touches(c: Command, s: Slot) { !c.NewKey? && c.slot == s }

  /** The last command that succeeded on a slot decides what is there, whatever came after it. */
  lemma {:induction false} LastWriteWins(view: map<Slot, string>, commands: seq<Command>, done: seq<bool>,
                                         i: nat, s: Slot)
    requires |done| == |commands| && i < |commands| && done[i] && Touches(commands[i], s)
    requires forall j | i < j < |commands| && done[j] :: !Touches(commands[j], s)
    ensures var v := Replay(view, commands, done);
            if commands[i].Put? then s in v && v[s] == commands[i].plaintext else s !in v
  {
    var n := |commands| - 1;
    if i < n {
      LastWriteWins(view, commands[..n], done[..n], i, s);
    }
  }

  /** Without a fault a command fails only for what it names: a slot no command may name, or
      one that is not there to be removed. */
  ghost predicate NoneLost(commands: seq<Command>, done: seq<bool>) {
    |done| == |commands| &&
    forall i | 0 <= i < |done| && !done[i] :: !commands[i].NewKey? && (commands[i].Put? ==> Malformed(commands[i].slot))
  }

  /** Any sequential history of Seal, Delete and Rotate, each failing wherever it likes,
      keeps the invariant, and the table means what the successful commands say. */
  method AnyHistory(sealer: Sealer, commands: seq<Command>) returns (done: seq<bool>)
    requires sealer.Valid()
    modifies sealer, sealer.db, sealer.key
    ensures sealer.Valid() && |done| == |commands|
    ensures sealer.View() == Replay(old(sealer.View()), commands, done)
    ensures sealer.db.faults == old(sealer.db.faults) ==> NoneLost(commands, done)
  {
    done := [];
    ghost var was := sealer.View();
    for i := 0 to |commands|
      invariant sealer.Valid() && |done| == i
      invariant sealer.View() == Replay(was, commands[..i], done)
      invariant sealer.db.faults >= old(sealer.db.faults)
      invariant sealer.db.faults == old(sealer.db.faults) ==> NoneLost(commands[..i], done)
      invariant sealer.key == old(sealer.key) || fresh(sealer.key)
    {
      assert commands[..i + 1][..i] == commands[..i];
      var ok;
      match commands[i] {
        case Put(s, p) =>
          var r := sealer.Seal(s, p);
          ok := r.Ok?;
        case Remove(s) =>
          var r := sealer.Delete(s);
          ok := r.Ok?;
        case NewKey(id) =>
          var r := RotateTo(sealer, id);
          ok := r.Ok?;
      }
      assert (done + [ok])[..i] == done;
      done := done + [ok];
    }
    assert commands[..|commands|] == commands;
  }

  method RotateTo(sealer: Sealer, id: nat) returns (r: Result<(), SecretError>)
    requires sealer.Valid()
    modifies sealer, sealer.db, sealer.key
    ensures sealer.Valid() && sealer.View() == old(sealer.View())
    ensures sealer.key == old(sealer.key) || fresh(sealer.key)
    ensures sealer.db.faults >= old(sealer.db.faults)
    ensures r.Err? ==> sealer.db.faults > old(sealer.db.faults)
  {
    var key := new Key(id);
    r := sealer.Rotate(key);
    if r.Ok? {
      RotationKeepsPlaintexts(old(sealer.key.id), old(sealer.db.secrets), id, sealer.db.secrets, sealer.version);
    }
  }
}
