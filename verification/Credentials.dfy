/** The in-memory credentials of `proxy/credentials.rs` and their agreement with the table. */
module Credentials {
  import opened Wrappers
  import opened Socks5Table

  // ----- what writing a batch means -----

  /** Ids grow along the table and stay below the next one to be given. */
  predicate IdsAscend(pool: Pool, nextId: nat) {
    && (forall i, j :: 0 <= i < j < |pool| ==> pool[i].id < pool[j].id)
    && (forall i :: 0 <= i < |pool| ==> pool[i].id < nextId)
  }

  predicate WellFormed(pool: Pool, nextId: nat) { UsernamesDistinct(pool) && IdsAscend(pool, nextId) }

  /** The last password a batch gives a username. */
  function LastPassword(socks: seq<Credential>, username: string): Option<string> {
    if socks == [] then None
    else if socks[|socks| - 1].username == username then Some(socks[|socks| - 1].password)
    else LastPassword(socks[..|socks| - 1], username)
  }

  lemma {:induction false} FindIn(pool: Pool, username: string)
    ensures match Find(pool, username)
            case Some(c) => c in pool && c.username == username
            case None => forall c :: c in pool ==> c.username != username
  {
    if pool != [] && pool[0].username != username {
      FindIn(pool[1..], username);
      assert pool == [pool[0]] + pool[1..];
    }
  }

  lemma {:induction false} FindUnique(pool: Pool, i: nat)
    requires UsernamesDistinct(pool) && i < |pool|
    ensures Find(pool, pool[i].username) == Some(pool[i])
  {
    if i > 0 {
      assert pool[0].username != pool[i].username;
      FindUnique(pool[1..], i - 1);
    }
  }

  lemma {:induction false} FindUpdated(pool: Pool, c: Credential, username: string)
    ensures var after := UpdateWhere(pool, (d: Credential) => d.username == c.username,
            (d: Credential) => d.(password := c.password));
            Find(after, username) ==
              match Find(pool, username)
              case None => None
              case Some(d) => Some(if username == c.username then d.(password := c.password) else d)
  {
    if pool != [] {
      FindUpdated(pool[1..], c, username);
      var after := UpdateWhere(pool, (d: Credential) => d.username == c.username,
          (d: Credential) => d.(password := c.password));
      var rest := UpdateWhere(pool[1..], (d: Credential) => d.username == c.username,
          (d: Credential) => d.(password := c.password));
      assert after[1..] == rest;
    }
  }

  lemma {:induction false} FindAppended(pool: Pool, c: Credential, username: string)
    ensures Find(pool + [c], username) ==
            if Find(pool, username).Some? then Find(pool, username)
            else if c.username == username then Some(c)
            else None
  {
    if pool != [] {
      FindAppended(pool[1..], c, username);
      assert (pool + [c])[1..] == pool[1..] + [c];
    }
  }

  lemma UpsertKeepsWellFormed(pool: Pool, nextId: nat, c: Credential)
    requires WellFormed(pool, nextId)
    ensures var (after, n) := Upsert(pool, nextId, c); WellFormed(after, n) && nextId <= n
  {
    FindIn(pool, c.username);
    if Find(pool, c.username).None? {
      forall i | 0 <= i < |pool| ensures pool[i].username != c.username { assert pool[i] in pool; }
    }
  }

  lemma UpsertMeaning(pool: Pool, nextId: nat, c: Credential, username: string)
    ensures var (after, _) := Upsert(pool, nextId, c);
            Find(after, username) ==
              if username != c.username then Find(pool, username)
              else match Find(pool, username)
                   case None => Some(c.(id := nextId))
                   case Some(d) => Some(d.(password := c.password))
  {
    if Find(pool, c.username).Some? {
      FindUpdated(pool, c, username);
    } else {
      FindAppended(pool, c.(id := nextId), username);
    }
  }

  /** The row of a username after a batch: an old row keeps everything but its password; a new one
      is the batch's first entry under a new id; either way the last password wins. */
  ghost predicate Written(
      before: Option<Credential>, after: Option<Credential>, socks: seq<Credential>, username: string, nextId: nat) {
    match LastPassword(socks, username)
    case None => after == before
    case Some(password) =>
      match before
      case Some(d) => after == Some(d.(password := password))
      case None =>
        && after.Some? && Find(socks, username).Some? && after.value.id >= nextId
        && after.value == Find(socks, username).value.(id := after.value.id, password := password)
  }

  lemma {:induction false} UpsertAllMeaning(pool: Pool, nextId: nat, socks: seq<Credential>, username: string)
    requires WellFormed(pool, nextId)
    ensures var (after, n) := UpsertAll(pool, nextId, socks);
            && WellFormed(after, n) && nextId <= n
            && Written(Find(pool, username), Find(after, username), socks, username, nextId)
  {
    if socks != [] {
      var init, last := socks[..|socks| - 1], socks[|socks| - 1];
      UpsertAllMeaning(pool, nextId, init, username);
      var (p, n) := UpsertAll(pool, nextId, init);
      UpsertKeepsWellFormed(p, n, last);
      UpsertMeaning(p, n, last, username);
      FindAppended(init, last, username);
      LastPasswordKnown(init, username);
      assert init + [last] == socks;
    }
  }

  lemma {:induction false} LastPasswordKnown(socks: seq<Credential>, username: string)
    ensures LastPassword(socks, username).Some? <==> username in Usernames(socks)
    ensures LastPassword(socks, username).Some? <==> Find(socks, username).Some?
  {
    if socks != [] {
      var init, last := socks[..|socks| - 1], socks[|socks| - 1];
      LastPasswordKnown(init, username);
      FindAppended(init, last, username);
      assert init + [last] == socks;
      assert forall c :: c in socks <==> c in init || c == last;
    }
  }

  lemma {:induction false} DeleteOthersKeepsSome(pool: Pool, names: set<string>)
    ensures forall c :: c in DeleteOthers(pool, names) ==> c in pool
  {
    if pool != [] {
      DeleteOthersKeepsSome(pool[1..], names);
      assert forall c :: c in pool[1..] ==> c in pool;
    }
  }

  lemma {:induction false} DeleteOthersKeepsWellFormed(pool: Pool, names: set<string>, nextId: nat)
    requires WellFormed(pool, nextId)
    ensures WellFormed(DeleteOthers(pool, names), nextId)
  {
    if pool != [] {
      var rest := pool[1..];
      var tail := DeleteOthers(rest, names);
      DeleteOthersKeepsWellFormed(rest, names, nextId);
      DeleteOthersKeepsSome(rest, names);
      forall i | 0 <= i < |tail| ensures tail[i].username != pool[0].username && pool[0].id < tail[i].id < nextId {
        assert tail[i] in rest;
        var j :| 0 <= j < |rest| && rest[j] == tail[i];
        assert pool[j + 1] == tail[i];
      }
      assert DeleteOthers(pool, names) == if pool[0].username in names then [pool[0]] + tail else tail;
    }
  }

  lemma {:induction false} DeleteOthersMeaning(pool: Pool, names: set<string>, username: string)
    ensures Find(DeleteOthers(pool, names), username) == if username in names then Find(pool, username) else None
  {
    if pool != [] {
      var tail := DeleteOthers(pool[1..], names);
      DeleteOthersMeaning(pool[1..], names, username);
      if pool[0].username in names {
        assert DeleteOthers(pool, names)[1..] == tail;
      } else {
        assert DeleteOthers(pool, names) == tail;
      }
    }
  }

  /** Writing a non-empty batch leaves exactly its usernames. The last duplicate's password wins,
      surviving rows keep id, address, availability and expiry, new rows come under new ids. */
  lemma WriteMeaning(pool: Pool, nextId: nat, socks: seq<Credential>, username: string)
    requires WellFormed(pool, nextId) && socks != []
    ensures var (after, n) := Write(pool, nextId, socks);
            && WellFormed(after, n)
            && (username in Usernames(after) <==> username in Usernames(socks))
            && Find(after, username).Some? == (username in Usernames(socks))
            && (username in Usernames(socks) ==>
               Written(Find(pool, username), Find(after, username), socks, username, nextId))
  {
    var (p, n) := UpsertAll(pool, nextId, socks);
    UpsertAllMeaning(pool, nextId, socks, username);
    DeleteOthersKeepsWellFormed(p, Usernames(socks), n);
    DeleteOthersMeaning(p, Usernames(socks), username);
    LastPasswordKnown(socks, username);
    FindIn(Write(pool, nextId, socks).0, username);
  }

  // ----- the map -----

  /** The map filled by inserting the rows in order: a later one overwrites. */
  function Filled(base: map<string, string>, socks: seq<Credential>): map<string, string> {
    if socks == [] then base
    else Filled(base, socks[..|socks| - 1])[socks[|socks| - 1].username := socks[|socks| - 1].password]
  }

  lemma {:induction false} FilledMeaning(base: map<string, string>, socks: seq<Credential>, username: string)
    ensures var m := Filled(base, socks);
            match LastPassword(socks, username)
            case Some(password) => username in m && m[username] == password
            case None => (username in m <==> username in base) && (username in m ==> m[username] == base[username])
  {
    if socks != [] {
      FilledMeaning(base, socks[..|socks| - 1], username);
    }
  }

  lemma {:induction false} LastOfDistinct(pool: Pool, username: string)
    requires UsernamesDistinct(pool)
    ensures LastPassword(pool, username)
         == match Find(pool, username) case None => None case Some(c) => Some(c.password)
  {
    if pool != [] {
      var init, last := pool[..|pool| - 1], pool[|pool| - 1];
      LastOfDistinct(init, username);
      FindAppended(init, last, username);
      FindIn(init, username);
      assert init + [last] == pool;
      forall c | c in init ensures c.username != last.username {
        var i :| 0 <= i < |init| && init[i] == c;
        assert pool[i] == c;
      }
    }
  }

  predicate Authenticates(credentials: map<string, string>, username: string, password: string) {
    username in credentials && credentials[username] == password
  }

  ghost predicate HasPair(pool: Pool, username: string, password: string) {
    exists c :: c in pool && c.username == username && c.password == password
  }

  /** The map accepts exactly the pairs that are rows of the table. */
  ghost predicate InSync(credentials: map<string, string>, pool: Pool) {
    forall u, p :: Authenticates(credentials, u, p) <==> HasPair(pool, u, p)
  }

  lemma SyncByLookup(credentials: map<string, string>, pool: Pool)
    requires UsernamesDistinct(pool)
    requires forall u :: match Find(pool, u)
                         case None => u !in credentials
                         case Some(c) => u in credentials && credentials[u] == c.password
    ensures InSync(credentials, pool)
  {
    forall u, p ensures Authenticates(credentials, u, p) <==> HasPair(pool, u, p) {
      FindIn(pool, u);
      if c :| c in pool && c.username == u && c.password == p {
        var i :| 0 <= i < |pool| && pool[i] == c;
        FindUnique(pool, i);
      }
    }
  }

  /** Loading any table into an empty map puts the two in agreement. */
  lemma LoadingSyncs(pool: Pool)
    requires UsernamesDistinct(pool)
    ensures InSync(Filled(map[], pool), pool)
  {
    forall u
      ensures match Find(pool, u)
              case None => u !in Filled(map[], pool)
              case Some(c) => u in Filled(map[], pool) && Filled(map[], pool)[u] == c.password
    {
      LastOfDistinct(pool, u);
      FilledMeaning(map[], pool, u);
    }
    SyncByLookup(Filled(map[], pool), pool);
  }

  /** So does writing a batch, duplicates and all, to the table and to an empty map; only an empty
      batch leaves old rows in the table that the map does not know. */
  lemma WritingSyncsExactly(pool: Pool, nextId: nat, socks: seq<Credential>)
    requires WellFormed(pool, nextId)
    ensures var (after, n) := Write(pool, nextId, socks);
            && WellFormed(after, n)
            && (InSync(Filled(map[], socks), after) <==> socks != [] || pool == [])
  {
    var (after, n) := Write(pool, nextId, socks);
    if socks == [] {
      if pool != [] {
        assert HasPair(pool, pool[0].username, pool[0].password);
        assert !Authenticates(map[], pool[0].username, pool[0].password);
      }
    } else {
      WriteMeaning(pool, nextId, socks, "");
      forall u
        ensures match Find(after, u)
                case None => u !in Filled(map[], socks)
                case Some(c) => u in Filled(map[], socks) && Filled(map[], socks)[u] == c.password
      {
        FilledMeaning(map[], socks, u);
        LastPasswordKnown(socks, u);
        WriteMeaning(pool, nextId, socks, u);
      }
      SyncByLookup(Filled(map[], socks), after);
    }
  }

  // ----- migration from password files -----

  /** A file `username.password`; `used` says that its `.used` twin exists. */
  datatype PasswordFile = PasswordFile(username: string, password: string, used: bool)

  /** The batch read from the files: empty passwords are skipped, used ones start unavailable. */
  function Imported(files: seq<PasswordFile>, host: string, port: int): seq<Credential> {
    if files == [] then []
    else
      var f := files[|files| - 1];
      Imported(files[..|files| - 1], host, port)
      + if f.password == "" then [] else [Credential(0, host, port, f.username, f.password, !f.used, 0)]
  }

  /** File by file, in order: a file with a password becomes one fresh row, available unless it was used;
      one without becomes nothing. */
  lemma {:induction false} ImportedMeaning(files: seq<PasswordFile>, more: seq<PasswordFile>, host: string, port: int)
    ensures Imported(files + more, host, port) == Imported(files, host, port) + Imported(more, host, port)
    ensures |files| == 1 && files[0].password == "" ==> Imported(files, host, port) == []
    ensures |files| == 1 && files[0].password != "" ==>
              |Imported(files, host, port)| == 1
              && var c := Imported(files, host, port)[0];
                 && c.username == files[0].username && c.password == files[0].password
                 && c.available == !files[0].used && c.expiresAt == 0 && c.ipAddress == host && c.port == port
    decreases |more|
  {
    if more == [] {
      assert files + more == files;
    } else {
      var init := more[..|more| - 1];
      ImportedMeaning(files, init, host, port);
      assert (files + more)[..|files + more| - 1] == files + init;
    }
    if |files| == 1 { assert files[..0] == [] && Imported([], host, port) == []; }
  }

  /** UPDATE ... SET ip_address, port. */
  function SyncHostPort(pool: Pool, host: string, port: int): Pool {
    UpdateWhere(pool, (c: Credential) => c.ipAddress != host || c.port != port,
        (c: Credential) => c.(ipAddress := host, port := port))
  }

  lemma {:induction false} SyncHostPortMeaning(pool: Pool, host: string, port: int)
    ensures var after := SyncHostPort(pool, host, port);
            |after| == |pool| && forall i :: 0 <= i < |pool| ==> after[i] == pool[i].(ipAddress := host, port := port)
  {
  }

  lemma SyncHostPortKeeps(credentials: map<string, string>, pool: Pool, nextId: nat, host: string, port: int)
    requires WellFormed(pool, nextId)
    ensures var after := SyncHostPort(pool, host, port);
            WellFormed(after, nextId) && (InSync(credentials, after) <==> InSync(credentials, pool))
  {
    var after := SyncHostPort(pool, host, port);
    SyncHostPortMeaning(pool, host, port);
    hide SyncHostPort;
    SamePairs(pool, after);
    SamePairs(after, pool);
  }

  lemma SamePairs(pool: Pool, after: Pool)
    requires |after| == |pool|
    requires forall i :: 0 <= i < |pool| ==>
               after[i].username == pool[i].username && after[i].password == pool[i].password
    ensures forall u, p :: HasPair(pool, u, p) ==> HasPair(after, u, p)
  {
    forall c | c in pool ensures exists d :: d in after && d.username == c.username && d.password == c.password {
      var i :| 0 <= i < |pool| && pool[i] == c;
      assert after[i] in after;
    }
  }

  // ----- the manager -----

  class CredentialManager {
    var credentials: map<string, string>
    const table: CredentialTable
    const host: string
    const port: int

    constructor (table: CredentialTable, host: string, port: int)
      ensures this.table == table && this.host == host && this.port == port && credentials == map[]
    {
      this.table, this.host, this.port := table, host, port;
      credentials := map[];
    }

    method Authenticate(username: string, password: string) returns (accepted: bool)
      ensures accepted <==> Authenticates(credentials, username, password)
    {
      if username !in credentials {
        return false;
      }
      var stored := credentials[username];
      if |stored| != |password| {
        return false;
      }
      return stored == password;
    }

    method LoadFromDb() returns (count: nat)
      requires UsernamesDistinct(table.pool)
      modifies this`credentials
      ensures credentials == Filled(map[], table.pool) && count == |table.pool|
      ensures InSync(credentials, table.pool)
    {
      var configs := table.pool;
      credentials := map[];
      for i := 0 to |configs|
        invariant credentials == Filled(map[], configs[..i])
      {
        assert configs[..i + 1][..i] == configs[..i];
        credentials := credentials[configs[i].username := configs[i].password];
      }
      assert configs[..|configs|] == configs;
      LoadingSyncs(configs);
      count := |configs|;
    }

    /** Writes the generated batch and adds it to the map. */
    method GenerateCredentials(socks: seq<Credential>)
      modifies this`credentials, table
      ensures (table.pool, table.nextId) == Write(old(table.pool), old(table.nextId), socks)
      ensures credentials == Filled(old(credentials), socks)
    {
      table.WriteSocks(socks);
      for i := 0 to |socks|
        invariant credentials == Filled(old(credentials), socks[..i])
        invariant (table.pool, table.nextId) == Write(old(table.pool), old(table.nextId), socks)
      {
        assert socks[..i + 1][..i] == socks[..i];
        credentials := credentials[socks[i].username := socks[i].password];
      }
      assert socks[..|socks|] == socks;
    }

    method MigrateFromPasswordFiles(files: seq<PasswordFile>)
      modifies this`credentials, table
      ensures (table.pool, table.nextId) == Write(old(table.pool), old(table.nextId), Imported(files, host, port))
      ensures credentials == Filled(old(credentials), Imported(files, host, port))
    {
      var socks: seq<Credential> := [];
      for i := 0 to |files|
        invariant socks == Imported(files[..i], host, port)
      {
        assert files[..i + 1][..i] == files[..i];
        if files[i].password != "" {
          socks := socks + [Credential(0, host, port, files[i].username, files[i].password, !files[i].used, 0)];
        }
      }
      assert files[..|files|] == files;
      GenerateCredentials(socks);
    }

    /** `files` are the legacy password files, if any; `socks` is the batch to use when there are none
        and the table is empty. Without files, exactly the table's username and password pairs
        authenticate afterwards. With files, the map, empty before, agrees with the table exactly if
        some file has a password or the table had no rows: else the old rows stay in the table and
        nobody can authenticate. */
    method Initialize(files: seq<PasswordFile>, socks: seq<Credential>)
      requires WellFormed(table.pool, table.nextId)
      modifies this`credentials, table
      ensures WellFormed(table.pool, table.nextId)
      ensures table.pool == SyncHostPort(if files != [] then
                                           Write(old(table.pool), old(table.nextId), Imported(files, host, port)).0
                                         else if old(table.pool) != [] then old(table.pool)
                                         else Write([], old(table.nextId), socks).0,
                                         host, port)
      ensures files == [] ==> InSync(credentials, table.pool)
      ensures files != [] && old(credentials) == map[] ==>
                (InSync(credentials, table.pool) <==> Imported(files, host, port) != [] || old(table.pool) == [])
    {
      if files != [] {
        WritingSyncsExactly(table.pool, table.nextId, Imported(files, host, port));
        MigrateFromPasswordFiles(files);
      } else {
        var count := LoadFromDb();
        if count == 0 {
          assert Filled(map[], table.pool) == map[];
          WritingSyncsExactly(table.pool, table.nextId, socks);
          GenerateCredentials(socks);
        }
      }
      SyncHostPortKeeps(credentials, table.pool, table.nextId, host, port);
      table.pool := SyncHostPort(table.pool, host, port);
    }
  }
}
