/** Install tokens, enrollment tokens, servers and the end of an enterprise: each operation is one
    transaction on the tables (internal/manager/store.go, store_install_tokens.go,
    store_enterprise_lifecycle.go, store_identity.go). */
module Enrollment {
  import opened Prelude

  datatype Status = ACTIVE | TERMINATED

  datatype Enterprise = Enterprise(name: string, status: Status)

  datatype InstallToken = InstallToken(enterprise: string, token: string, expires: int, revoked: bool, max: Option<nat>, count: nat)

  /** A session token; `install` is the install token it was exchanged for, if any. */
  datatype EnrollmentToken = EnrollmentToken(enterprise: string, install: Option<string>, expires: int, used: bool)

  /** `via` is the enrollment token that created the server. */
  datatype Server = Server(enterprise: string, via: string, install: Option<string>, revoked: bool)

  datatype User = User(enterprise: string, systemAdmin: bool, active: bool, deleted: bool)

  datatype Db = Db(
    enterprises: map<string, Enterprise>, installs: map<string, InstallToken>,
    enrollments: map<string, EnrollmentToken>, servers: map<string, Server>, users: map<string, User>)

  const EMPTY := Db(map[], map[], map[], map[], map[])

  /** 2037-12-31 23:59:59 UTC, the marker of tokens without expiry. */
  const PERSISTENT := 2145916799

  predicate IsActive(db: Db, e: string) { e in db.enterprises && db.enterprises[e].status == ACTIVE }

  predicate IsTerminated(db: Db, e: string) { e in db.enterprises && db.enterprises[e].status == TERMINATED }

  /** `installTokenUsable`. */
  predicate Usable(t: InstallToken, now: int) {
    !t.revoked && (t.expires == PERSISTENT || t.expires > now) && (t.max.None? || t.count < t.max.value)
  }

  // ---------------------------------------------------------------- operations

  function CreateEnrollmentToken(db: Db, token: string, enterprise: string, expires: int): Result<Db> {
    if enterprise == "" || !IsActive(db, enterprise) then Err("enterprise is not active")
    else Ok(db.(enrollments := db.enrollments[token := EnrollmentToken(enterprise, None, expires, false)]))
  }

  function CreateInstallToken(db: Db, id: string, token: string, enterprise: string, name: string, expires: int, max: int, now: int): Result<Db> {
    if enterprise == "" || name == "" || expires <= now then Err("enterprise, name and future expiry are required")
    else if !IsActive(db, enterprise) then Err("enterprise is not active")
    else
      var limit: Option<nat> := if max > 0 then Some(max) else None;
      Ok(db.(installs := db.installs[id := InstallToken(enterprise, token, expires, false, limit, 0)]))
  }

  /** The existing token `EnsurePersistentEnterpriseInstallToken` would return. */
  predicate Reusable(db: Db, id: string, enterprise: string, now: int) {
    && id in db.installs && db.installs[id].enterprise == enterprise
    && !db.installs[id].revoked && db.installs[id].expires > now
    && (db.installs[id].max.None? || db.installs[id].count < db.installs[id].max.value)
  }

  /** Ok((db, created)). */
  function EnsurePersistentToken(db: Db, id: string, token: string, enterprise: string, name: string, now: int): Result<(Db, bool)> {
    if enterprise == "" || name == "" then Err("enterprise and name are required")
    else if !IsActive(db, enterprise) then Err("enterprise is not active")
    else if exists other :: other in db.installs && Reusable(db, other, enterprise, now) then Ok((db, false))
    else Ok((db.(installs := db.installs[id := InstallToken(enterprise, token, PERSISTENT, false, None, 0)]), true))
  }

  function Revoke(db: Db, id: string, scope: string): Result<Db> {
    if id !in db.installs || db.installs[id].revoked || (scope != "" && db.installs[id].enterprise != scope) then Err("no rows")
    else Ok(db.(installs := db.installs[id := db.installs[id].(revoked := true)]))
  }

  /** An install token becomes a short-lived enrollment token. */
  function Exchange(db: Db, id: string, enrollment: string, ttl: int, now: int): Result<Db> {
    if id !in db.installs || !IsActive(db, db.installs[id].enterprise) || !Usable(db.installs[id], now) then Err("invalid install token")
    else
      var t := db.installs[id];
      var session := if t.expires != PERSISTENT && now + ttl > t.expires then t.expires else now + ttl;
      Ok(db.(enrollments := db.enrollments[enrollment := EnrollmentToken(t.enterprise, Some(id), session, false)]))
  }

  /** `ConsumeEnrollment`. */
  function Consume(db: Db, token: string, server: string, now: int): Result<Db> {
    if token !in db.enrollments then Err("invalid enrollment token")
    else
      var t := db.enrollments[token];
      if t.enterprise == "" || t.used || t.expires <= now || !IsActive(db, t.enterprise) then Err("invalid enrollment token")
      else if t.install.Some? && (t.install.value !in db.installs || !Usable(db.installs[t.install.value], now)) then Err("invalid enrollment token")
      else if server in db.servers then Err("duplicate server")
      else
        Ok(db.(servers := db.servers[server := Server(t.enterprise, token, t.install, false)],
               enrollments := db.enrollments[token := t.(used := true)],
               installs := if t.install.None? then db.installs
                           else db.installs[t.install.value := db.installs[t.install.value].(count := db.installs[t.install.value].count + 1)]))
  }

  /** Rows of other tables that keep an enterprise from being deleted outright. */
  predicate HasDependents(db: Db, e: string) {
    || (exists u :: u in db.users && db.users[u].enterprise == e)
    || (exists t :: t in db.enrollments && db.enrollments[t].enterprise == e)
    || (exists s :: s in db.servers && db.servers[s].enterprise == e)
    || (exists i :: i in db.installs && db.installs[i].enterprise == e)
  }

  /** `DeleteOrTerminateEnterprise`; `policies` says whether policy or group rows depend on it. */
  function DeleteOrTerminate(db: Db, e: string, name: string, policies: bool): Result<Db> {
    if e !in db.enterprises then Err("no rows")
    else if db.enterprises[e].status != ACTIVE then Err("enterprise is not active")
    else if name == "" || name != db.enterprises[e].name then Err("confirmation does not match")
    else if exists u :: u in db.users && db.users[u].enterprise == e && db.users[u].systemAdmin && !db.users[u].deleted then Err("protected")
    else if !policies && !HasDependents(db, e) then Ok(db.(enterprises := db.enterprises - {e}))
    else Ok(Terminated(db, e))
  }

  function Terminated(db: Db, e: string): Db
    requires e in db.enterprises
  {
    Db(db.enterprises[e := db.enterprises[e].(status := TERMINATED)],
       map i | i in db.installs :: if db.installs[i].enterprise == e then db.installs[i].(revoked := true) else db.installs[i],
       map t | t in db.enrollments :: if db.enrollments[t].enterprise == e then db.enrollments[t].(used := true) else db.enrollments[t],
       map s | s in db.servers :: if db.servers[s].enterprise == e then db.servers[s].(revoked := true) else db.servers[s],
       map u | u in db.users :: if db.users[u].enterprise == e && !db.users[u].systemAdmin then db.users[u].(active := false) else db.users[u])
  }

  /** `UserByID`. */
  function FindUser(db: Db, id: string): Option<User> {
    if id in db.users && !db.users[id].deleted && IsActive(db, db.users[id].enterprise) then Some(db.users[id]) else None
  }

  /** `ValidateEnrollmentToken`. */
  predicate EnrollmentUsable(db: Db, token: string, now: int) {
    && token in db.enrollments
    && var t := db.enrollments[token];
       && IsActive(db, t.enterprise) && t.enterprise != "" && !t.used && t.expires > now
       && (t.install.None? || (t.install.value in db.installs && !db.installs[t.install.value].revoked
                               && (db.installs[t.install.value].expires == PERSISTENT || db.installs[t.install.value].expires > now)))
  }

  /** An install token is made for an active enterprise, with a name and a time to come; no maximum means no limit. */
  lemma {:induction false} CreatedInstallToken(db: Db, id: string, token: string, e: string, name: string, expires: int, max: int, now: int)
    ensures var r := CreateInstallToken(db, id, token, e, name, expires, max, now);
            && (r.Ok? <==> e != "" && name != "" && now < expires && e in db.enterprises && db.enterprises[e].status == ACTIVE)
            && (r.Ok? ==>
                  && id in r.value.installs && r.value == db.(installs := db.installs[id := r.value.installs[id]])
                  && var t := r.value.installs[id];
                     && t.enterprise == e && t.token == token && t.expires == expires && !t.revoked && t.count == 0
                     && (t.max.None? <==> max <= 0) && (t.max.Some? ==> t.max.value == max)
                     && Usable(t, now))
  {
  }

  /** Revoking is done once, by someone whose enterprise it is or who has all of them, and ends the token at once. */
  lemma {:induction false} RevokedOnce(db: Db, id: string, scope: string, now: int)
    ensures var r := Revoke(db, id, scope);
            && (r.Ok? <==> id in db.installs && !db.installs[id].revoked && (scope == "" || scope == db.installs[id].enterprise))
            && (r.Ok? ==>
                  && r.value == db.(installs := db.installs[id := db.installs[id].(revoked := true)])
                  && !Usable(r.value.installs[id], now) && Revoke(r.value, id, scope).Err?)
  {
  }

  /** Ending an enterprise needs it active, its name repeated and no system administrator in it. Its row goes exactly
      when nothing refers to it; otherwise it is marked and everything that does is closed. */
  lemma {:induction false} EndedEnterprise(db: Db, e: string, name: string, policies: bool)
    ensures var r := DeleteOrTerminate(db, e, name, policies);
            && (r.Ok? <==>
                  && e in db.enterprises && db.enterprises[e].status == ACTIVE && name != "" && name == db.enterprises[e].name
                  && forall u :: u in db.users && db.users[u].enterprise == e && db.users[u].systemAdmin ==> db.users[u].deleted)
            && (r.Ok? ==>
                  && (e !in r.value.enterprises <==>
                        && !policies && (forall u :: u in db.users ==> db.users[u].enterprise != e)
                        && (forall t :: t in db.enrollments ==> db.enrollments[t].enterprise != e)
                        && (forall s :: s in db.servers ==> db.servers[s].enterprise != e)
                        && (forall i :: i in db.installs ==> db.installs[i].enterprise != e))
                  && (e in r.value.enterprises ==> r.value.enterprises[e].status == TERMINATED)
                  && (forall o :: o != e ==> (o in r.value.enterprises <==> o in db.enterprises))
                  && (forall o :: o != e && o in db.enterprises ==> r.value.enterprises[o] == db.enterprises[o])
                  && ClosedFor(db, r.value, e))
  {
  }

  /** Tokens, servers and users of an enterprise are closed, and the others are as they were. */
  ghost predicate ClosedFor(db: Db, after: Db, e: string) {
    && after.installs.Keys == db.installs.Keys && after.enrollments.Keys == db.enrollments.Keys
    && after.servers.Keys == db.servers.Keys && after.users.Keys == db.users.Keys
    && (forall i :: i in db.installs ==>
          after.installs[i] == if db.installs[i].enterprise == e then db.installs[i].(revoked := true) else db.installs[i])
    && (forall t :: t in db.enrollments ==>
          after.enrollments[t] == if db.enrollments[t].enterprise == e then db.enrollments[t].(used := true) else db.enrollments[t])
    && (forall s :: s in db.servers ==>
          after.servers[s] == if db.servers[s].enterprise == e then db.servers[s].(revoked := true) else db.servers[s])
    && (forall u :: u in db.users ==>
          after.users[u] == if db.users[u].enterprise == e && !db.users[u].systemAdmin then db.users[u].(active := false) else db.users[u])
  }

  /** A user is found while neither deleted nor of an ended enterprise. */
  lemma {:induction false} FoundUser(db: Db, id: string)
    ensures FindUser(db, id).Some? <==> id in db.users && !db.users[id].deleted && IsActive(db, db.users[id].enterprise)
    ensures FindUser(db, id).Some? ==> FindUser(db, id).value == db.users[id]
  {
  }

  /** Enrolling succeeds exactly with a token that the validation before it lets through, in time, below the install
      token's maximum, and for a new server. */
  lemma {:induction false} ConsumesUsable(db: Db, token: string, server: string, now: int)
    ensures Consume(db, token, server, now).Ok? <==>
              && EnrollmentUsable(db, token, now) && server !in db.servers
              && (db.enrollments[token].install.Some? ==>
                    var t := db.installs[db.enrollments[token].install.value]; t.max.None? || t.count < t.max.value)
    ensures Consume(db, token, server, now).Ok? ==>
              var t := db.enrollments[token];
              && now < t.expires && !t.used
              && (t.install.Some? ==> db.installs[t.install.value].expires == PERSISTENT || now < db.installs[t.install.value].expires)
              && var s := Consume(db, token, server, now).value.servers;
                 s.Keys == db.servers.Keys + {server} && s[server] == Server(t.enterprise, token, t.install, false)
  {
  }

  /** An exchange gives the time asked for, cut to the time the install token has left, if that ends. */
  lemma {:induction false} ExchangeInTime(db: Db, id: string, enrollment: string, ttl: int, now: int)
    requires Exchange(db, id, enrollment, ttl, now).Ok?
    ensures id in db.installs && !db.installs[id].revoked && IsActive(db, db.installs[id].enterprise)
    ensures var t, e := db.installs[id], Exchange(db, id, enrollment, ttl, now).value.enrollments[enrollment];
            && e.install == Some(id) && e.enterprise == t.enterprise && !e.used
            && e.expires <= now + ttl && (t.expires != PERSISTENT ==> e.expires <= t.expires && now < t.expires)
            && (e.expires == now + ttl || (t.expires != PERSISTENT && e.expires == t.expires))
    ensures ttl > 0 && db.installs[id].enterprise != "" ==> EnrollmentUsable(Exchange(db, id, enrollment, ttl, now).value, enrollment, now)
  {
  }

  // ---------------------------------------------------------------- runs

  datatype Action =
    | NewEnterprise(id: string, name: string)
    | NewUser(id: string, user: User)
    | ChangeUser(id: string, user: User)
    | NewEnrollment(token: string, enterprise: string, expires: int)
    | NewInstall(id: string, token: string, enterprise: string, name: string, expires: int, max: int, now: int)
    | Ensure(id: string, token: string, enterprise: string, name: string, now: int)
    | RevokeInstall(id: string, scope: string)
    | ExchangeInstall(id: string, token: string, ttl: int, now: int)
    | Enroll(token: string, server: string, now: int)
    | EndEnterprise(id: string, name: string, policies: bool)

  function OrSame(r: Result<Db>, db: Db): Db { if r.Ok? then r.value else db }

  /** Random ids and tokens are new; a failed operation changes nothing. */
  function Do(db: Db, a: Action): Db {
    match a
    case NewEnterprise(id, name) => if id in db.enterprises then db else db.(enterprises := db.enterprises[id := Enterprise(name, ACTIVE)])
    case NewUser(id, u) => if id in db.users || !IsActive(db, u.enterprise) then db else db.(users := db.users[id := u])
    case ChangeUser(id, u) => if id !in db.users || u.enterprise != db.users[id].enterprise then db else db.(users := db.users[id := u])
    case NewEnrollment(t, e, x) => if t in db.enrollments then db else OrSame(CreateEnrollmentToken(db, t, e, x), db)
    case NewInstall(i, t, e, n, x, m, now) => if i in db.installs then db else OrSame(CreateInstallToken(db, i, t, e, n, x, m, now), db)
    case Ensure(i, t, e, n, now) =>
      if i in db.installs then db
      else (match EnsurePersistentToken(db, i, t, e, n, now) case Ok((db', _)) => db' case Err(_) => db)
    case RevokeInstall(i, s) => OrSame(Revoke(db, i, s), db)
    case ExchangeInstall(i, t, ttl, now) => if t in db.enrollments then db else OrSame(Exchange(db, i, t, ttl, now), db)
    case Enroll(t, s, now) => OrSame(Consume(db, t, s, now), db)
    case EndEnterprise(e, n, p) => OrSame(DeleteOrTerminate(db, e, n, p), db)
  }

  function Run(db: Db, actions: seq<Action>): Db {
    if actions == [] then db else Do(Run(db, actions[..|actions| - 1]), actions[|actions| - 1])
  }

  // ---------------------------------------------------------------- invariant

  function ServersOf(db: Db, install: string): set<string> {
    set s | s in db.servers && db.servers[s].install == Some(install)
  }

  predicate CameFrom(db: Db, s: Server) {
    && s.via in db.enrollments && db.enrollments[s.via].used
    && db.enrollments[s.via].install == s.install && db.enrollments[s.via].enterprise == s.enterprise
  }

  ghost predicate Enrolled(db: Db) {
    && (forall s :: s in db.servers ==> CameFrom(db, db.servers[s]))
    && (forall s, s' :: s in db.servers && s' in db.servers && db.servers[s].via == db.servers[s'].via ==> s == s')
  }

  ghost predicate Counted(db: Db) {
    && (forall i :: i in db.installs ==> db.installs[i].count == |ServersOf(db, i)|)
    && (forall i :: i in db.installs && db.installs[i].max.Some? ==> db.installs[i].count <= db.installs[i].max.value)
    && (forall t :: t in db.enrollments && db.enrollments[t].install.Some? ==> db.enrollments[t].install.value in db.installs)
  }

  ghost predicate Ended(db: Db) {
    && (forall i :: i in db.installs && IsTerminated(db, db.installs[i].enterprise) ==> db.installs[i].revoked)
    && (forall t :: t in db.enrollments && IsTerminated(db, db.enrollments[t].enterprise) ==> db.enrollments[t].used)
    && (forall s :: s in db.servers && IsTerminated(db, db.servers[s].enterprise) ==> db.servers[s].revoked)
  }

  ghost predicate Inv(db: Db) { Enrolled(db) && Counted(db) && Ended(db) }

  lemma ConsumeEnrolled(db: Db, token: string, server: string, now: int)
    requires Inv(db) && Consume(db, token, server, now).Ok?
    ensures Enrolled(Consume(db, token, server, now).value)
  {
    var db' := Consume(db, token, server, now).value;
    forall s | s in db.servers ensures db.servers[s].via != token && CameFrom(db', db.servers[s]) {
      assert CameFrom(db, db.servers[s]);
    }
    assert CameFrom(db', db'.servers[server]);
  }

  lemma OneMoreServer(db: Db, db': Db, id: string, server: Server, install: string)
    requires id !in db.servers && db'.servers == db.servers[id := server]
    ensures |ServersOf(db', install)| == |ServersOf(db, install)| + (if server.install == Some(install) then 1 else 0)
  {
    if server.install == Some(install) {
      assert ServersOf(db', install) == ServersOf(db, install) + {id};
    } else {
      assert ServersOf(db', install) == ServersOf(db, install);
    }
  }

  lemma ConsumeCounted(db: Db, token: string, server: string, now: int)
    requires Counted(db) && Consume(db, token, server, now).Ok?
    ensures Counted(Consume(db, token, server, now).value)
  {
    var db' := Consume(db, token, server, now).value;
    forall i | i in db'.installs ensures db'.installs[i].count == |ServersOf(db', i)| {
      OneMoreServer(db, db', server, db'.servers[server], i);
    }
  }

  lemma ConsumeEnded(db: Db, token: string, server: string, now: int)
    requires Ended(db) && Consume(db, token, server, now).Ok?
    ensures Ended(Consume(db, token, server, now).value)
  {
  }

  predicate NewSession(db: Db, t: EnrollmentToken) {
    IsActive(db, t.enterprise) && (t.install.Some? ==> t.install.value in db.installs)
  }

  predicate SameQuota(t: InstallToken, t': InstallToken) {
    && t'.enterprise == t.enterprise && t'.max == t.max && t'.count == t.count
    && (t.revoked ==> t'.revoked)
  }

  /** Operations that leave the servers and their tokens alone. */
  lemma SameServersInv(db: Db, db': Db)
    requires Inv(db) && db'.servers == db.servers
    requires forall t :: t in db.enrollments ==> t in db'.enrollments && db'.enrollments[t] == db.enrollments[t]
    requires forall t :: t in db'.enrollments && t !in db.enrollments ==> NewSession(db', db'.enrollments[t])
    requires forall i :: i in db.installs ==> i in db'.installs && SameQuota(db.installs[i], db'.installs[i])
    requires forall i :: i in db'.installs && i !in db.installs ==> IsActive(db', db'.installs[i].enterprise) && db'.installs[i].count == 0
    requires forall e :: IsTerminated(db', e) ==> IsTerminated(db, e)
    ensures Inv(db')
  {
    forall s | s in db.servers ensures CameFrom(db', db'.servers[s]) { assert CameFrom(db, db.servers[s]); }
    forall i | i in db'.installs ensures db'.installs[i].count == |ServersOf(db', i)| {
      assert ServersOf(db', i) == ServersOf(db, i);
      if i !in db.installs {
        forall s | s in db.servers ensures db.servers[s].install != Some(i) { assert CameFrom(db, db.servers[s]); }
        assert ServersOf(db, i) == {};
      }
    }
  }

  lemma TerminatedInv(db: Db, e: string)
    requires Inv(db) && e in db.enterprises
    ensures Inv(Terminated(db, e))
  {
    TerminatedEnrolled(db, e);
    TerminatedCounted(db, e);
  }

  lemma TerminatedEnrolled(db: Db, e: string)
    requires Enrolled(db) && e in db.enterprises
    ensures Enrolled(Terminated(db, e))
  {
    var db' := Terminated(db, e);
    forall s | s in db'.servers ensures CameFrom(db', db'.servers[s]) { assert CameFrom(db, db.servers[s]); }
  }

  lemma TerminatedCounted(db: Db, e: string)
    requires Counted(db) && e in db.enterprises
    ensures Counted(Terminated(db, e))
  {
    var db' := Terminated(db, e);
    forall i | i in db'.installs ensures db'.installs[i].count == |ServersOf(db', i)| {
      assert ServersOf(db', i) == ServersOf(db, i);
    }
  }

  lemma EnrollInv(db: Db, t: string, s: string, now: int)
    requires Inv(db)
    ensures Inv(OrSame(Consume(db, t, s, now), db))
  {
    if Consume(db, t, s, now).Ok? {
      ConsumeEnrolled(db, t, s, now);
      ConsumeCounted(db, t, s, now);
      ConsumeEnded(db, t, s, now);
    }
  }

  lemma EndInv(db: Db, e: string, name: string, policies: bool)
    requires Inv(db)
    ensures Inv(OrSame(DeleteOrTerminate(db, e, name, policies), db))
  {
    var r := DeleteOrTerminate(db, e, name, policies);
    if r.Ok? {
      if r.value == Terminated(db, e) { TerminatedInv(db, e); } else { SameServersInv(db, r.value); }
    }
  }

  lemma AddSession(db: Db, token: string, t: EnrollmentToken)
    requires Inv(db) && token !in db.enrollments && NewSession(db, t)
    ensures Inv(db.(enrollments := db.enrollments[token := t]))
  {
    SameServersInv(db, db.(enrollments := db.enrollments[token := t]));
  }

  lemma PutInstall(db: Db, id: string, t: InstallToken)
    requires Inv(db)
    requires if id in db.installs then SameQuota(db.installs[id], t) else IsActive(db, t.enterprise) && t.count == 0
    ensures Inv(db.(installs := db.installs[id := t]))
  {
    SameServersInv(db, db.(installs := db.installs[id := t]));
  }

  lemma PeopleInv(db: Db, enterprises: map<string, Enterprise>, users: map<string, User>)
    requires Inv(db)
    requires forall e :: e in enterprises && enterprises[e].status == TERMINATED ==> IsTerminated(db, e)
    ensures Inv(db.(enterprises := enterprises, users := users))
  {
    SameServersInv(db, db.(enterprises := enterprises, users := users));
  }

  lemma TokenInv(db: Db, a: Action)
    requires Inv(db) && Do(db, a) != db
    requires a.NewEnrollment? || a.NewInstall? || a.Ensure? || a.RevokeInstall? || a.ExchangeInstall?
    ensures Inv(Do(db, a))
  {
    var db' := Do(db, a);
    match a
    case NewEnrollment(t, _, _) => AddSession(db, t, db'.enrollments[t]);
    case ExchangeInstall(_, t, _, _) => AddSession(db, t, db'.enrollments[t]);
    case NewInstall(i, _, _, _, _, _, _) => PutInstall(db, i, db'.installs[i]);
    case Ensure(i, _, _, _, _) => PutInstall(db, i, db'.installs[i]);
    case RevokeInstall(i, _) => PutInstall(db, i, db'.installs[i]);
  }

  lemma DoInv(db: Db, a: Action)
    requires Inv(db)
    ensures Inv(Do(db, a))
  {
    if Do(db, a) != db {
      match a
      case Enroll(t, s, now) => EnrollInv(db, t, s, now);
      case EndEnterprise(e, n, p) => EndInv(db, e, n, p);
      case NewEnterprise(_, _) => PeopleInv(db, Do(db, a).enterprises, db.users);
      case NewUser(_, _) => PeopleInv(db, db.enterprises, Do(db, a).users);
      case ChangeUser(_, _) => PeopleInv(db, db.enterprises, Do(db, a).users);
      case _ => TokenInv(db, a);
    }
  }

  lemma {:induction false} RunInv(actions: seq<Action>)
    ensures Inv(Run(EMPTY, actions))
  {
    if actions != [] {
      RunInv(actions[..|actions| - 1]);
      DoInv(Run(EMPTY, actions[..|actions| - 1]), actions[|actions| - 1]);
    }
  }

  // ---------------------------------------------------------------- theorems over whole runs

  /** After any run, each enrollment token created at most one server, and an install token's counter is
      the number of servers created through it and never exceeds its maximum. */
  lemma QuotasHold(actions: seq<Action>)
    ensures var db := Run(EMPTY, actions);
      && (forall s, s' :: s in db.servers && s' in db.servers && db.servers[s].via == db.servers[s'].via ==> s == s')
      && (forall i :: i in db.installs ==> |ServersOf(db, i)| == db.installs[i].count)
      && (forall i :: i in db.installs && db.installs[i].max.Some? ==> |ServersOf(db, i)| <= db.installs[i].max.value)
  {
    RunInv(actions);
  }

  function ServersIn(db: Db, e: string): set<string> { set s | s in db.servers && db.servers[s].enterprise == e }

  /** One operation never revives a terminated enterprise and never gives it a server. */
  lemma TerminatedAbsorbs(db: Db, a: Action, e: string)
    requires IsTerminated(db, e)
    ensures IsTerminated(Do(db, a), e) && ServersIn(Do(db, a), e) == ServersIn(db, e)
  {
    match a
    case Enroll(t, s, now) => if Consume(db, t, s, now).Ok? { EnrollElsewhere(db, t, s, now, e); }
    case EndEnterprise(id, n, p) => EndElsewhere(db, id, n, p, e);
    case _ => assert Do(db, a).servers == db.servers;
  }

  lemma EnrollElsewhere(db: Db, t: string, s: string, now: int, e: string)
    requires IsTerminated(db, e) && Consume(db, t, s, now).Ok?
    ensures IsTerminated(Consume(db, t, s, now).value, e) && ServersIn(Consume(db, t, s, now).value, e) == ServersIn(db, e)
  {
  }

  lemma EndElsewhere(db: Db, id: string, name: string, policies: bool, e: string)
    requires IsTerminated(db, e)
    ensures var db' := OrSame(DeleteOrTerminate(db, id, name, policies), db);
            IsTerminated(db', e) && ServersIn(db', e) == ServersIn(db, e)
  {
  }

  lemma NothingUsable(db: Db, e: string)
    requires Inv(db) && IsTerminated(db, e)
    ensures forall i, now :: i in db.installs && db.installs[i].enterprise == e ==> !Usable(db.installs[i], now)
    ensures forall t, now :: t in db.enrollments && db.enrollments[t].enterprise == e ==> !EnrollmentUsable(db, t, now)
    ensures forall u :: FindUser(db, u).Some? ==> FindUser(db, u).value.enterprise != e
    ensures forall s :: s in db.servers && db.servers[s].enterprise == e ==> db.servers[s].revoked
  {
  }

  /** Once an enterprise is TERMINATED, whatever happens afterwards: it stays so, gets no server, none of
      its tokens is usable, none of its users can be looked up. */
  lemma {:induction false} TerminationIsFinal(before: seq<Action>, after: seq<Action>, e: string)
    requires IsTerminated(Run(EMPTY, before), e)
    ensures var db, db' := Run(EMPTY, before), Run(EMPTY, before + after);
      && IsTerminated(db', e) && ServersIn(db', e) == ServersIn(db, e)
      && (forall i, now :: i in db'.installs && db'.installs[i].enterprise == e ==> !Usable(db'.installs[i], now))
      && (forall t, now :: t in db'.enrollments && db'.enrollments[t].enterprise == e ==> !EnrollmentUsable(db', t, now))
      && (forall u :: FindUser(db', u).Some? ==> FindUser(db', u).value.enterprise != e)
  {
    RunInv(before + after);
    if after == [] {
      assert before + after == before;
    } else {
      var front := after[..|after| - 1];
      TerminationIsFinal(before, front, e);
      assert (before + after)[..|before + after| - 1] == before + front;
      RunInv(before + front);
      TerminatedAbsorbs(Run(EMPTY, before + front), after[|after| - 1], e);
    }
    NothingUsable(Run(EMPTY, before + after), e);
  }

  /** "Created only when no usable token exists" holds exactly when, if there is a usable token, there is one whose
      expiry has not passed; so it always holds until the marker date of persistent tokens is reached. */
  lemma EnsureCreatesOnlyWhenNoneUsable(db: Db, id: string, token: string, e: string, name: string, now: int)
    requires e != "" && name != "" && IsActive(db, e) && id !in db.installs
    ensures var usable := exists i :: i in db.installs && db.installs[i].enterprise == e && Usable(db.installs[i], now);
            var created := EnsurePersistentToken(db, id, token, e, name, now).value.1;
            && (!usable ==> created)
            && ((created ==> !usable) <==>
                (usable ==> exists i :: i in db.installs && db.installs[i].enterprise == e && Usable(db.installs[i], now) && db.installs[i].expires > now))
            && (now < PERSISTENT ==> (created <==> !usable))
  {
    if i :| i in db.installs && Reusable(db, i, e, now) {
      assert Usable(db.installs[i], now);
    }
    if i :| i in db.installs && db.installs[i].enterprise == e && Usable(db.installs[i], now) && db.installs[i].expires > now {
      assert Reusable(db, i, e, now);
    }
  }

  /** After the marker date a usable persistent token no longer stops a second one from being issued. */
  lemma SecondPersistentTokenAfterMarkerDate(now: int)
    requires now >= PERSISTENT
    ensures var db := Db(map["e" := Enterprise("n", ACTIVE)], map["a" := InstallToken("e", "t", PERSISTENT, false, None, 0)], map[], map[], map[]);
            Usable(db.installs["a"], now) && EnsurePersistentToken(db, "b", "u", "e", "n", now).value.1
  {
  }

  // ---------------------------------------------------------------- the two longest transactions, step by step

  class EnterpriseStore {
    var enterprises: map<string, Enterprise>
    var installs: map<string, InstallToken>
    var enrollments: map<string, EnrollmentToken>
    var servers: map<string, Server>
    var users: map<string, User>

    function Tables(): Db
      reads this
    {
      Db(enterprises, installs, enrollments, servers, users)
    }

    /** `ConsumeEnrollment`: checks under row locks, then three writes; any error rolls back. */
    method ConsumeEnrollment(token: string, server: string, now: int) returns (ok: bool)
      modifies this
      ensures ok == Consume(old(Tables()), token, server, now).Ok?
      ensures Tables() == OrSame(Consume(old(Tables()), token, server, now), old(Tables()))
    {
      if token !in enrollments { return false; }
      var t := enrollments[token];
      if t.enterprise == "" || t.used || t.expires <= now { return false; }
      if !IsActive(Tables(), t.enterprise) { return false; }
      if t.install.Some? {
        if t.install.value !in installs || !Usable(installs[t.install.value], now) { return false; }
      }
      if server in servers { return false; }
      servers := servers[server := Server(t.enterprise, token, t.install, false)];
      enrollments := enrollments[token := t.(used := true)];
      if t.install.Some? {
        var i := installs[t.install.value];
        installs := installs[t.install.value := i.(count := i.count + 1)];
      }
      ok := true;
    }

    /** `DeleteOrTerminateEnterprise`: one table after the other under the enterprise's row lock. */
    method EndEnterprise(e: string, name: string, policies: bool) returns (ok: bool)
      modifies this
      ensures ok == DeleteOrTerminate(old(Tables()), e, name, policies).Ok?
      ensures Tables() == OrSame(DeleteOrTerminate(old(Tables()), e, name, policies), old(Tables()))
    {
      if e !in enterprises || enterprises[e].status != ACTIVE { return false; }
      if name == "" || name != enterprises[e].name { return false; }
      if exists u :: u in users && users[u].enterprise == e && users[u].systemAdmin && !users[u].deleted { return false; }
      if !policies && !HasDependents(Tables(), e) {
        enterprises := enterprises - {e};
        return true;
      }
      TerminateRows(e);
      ok := true;
    }

    method TerminateRows(e: string)
      requires e in enterprises
      modifies this
      ensures Tables() == Terminated(old(Tables()), e)
    {
      enterprises := enterprises[e := enterprises[e].(status := TERMINATED)];
      users := map u | u in users :: if users[u].enterprise == e && !users[u].systemAdmin then users[u].(active := false) else users[u];
      installs := map i | i in installs :: if installs[i].enterprise == e then installs[i].(revoked := true) else installs[i];
      enrollments := map t | t in enrollments :: if enrollments[t].enterprise == e then enrollments[t].(used := true) else enrollments[t];
      servers := map s | s in servers :: if servers[s].enterprise == e then servers[s].(revoked := true) else servers[s];
    }
  }
}
