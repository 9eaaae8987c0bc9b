/** The users and api_keys tables: rows, unique indexes, and the commits that change them
    (internal/identity/repo.go, internal/identity/service.go, cmd/seed/main.go). */
module Accounts {
  import opened Basics

  datatype User = User(id: string, handle: string, role: string, active: bool, ssoSubject: Option<string>)

  datatype APIKey = APIKey(id: string, userId: string, hash: string, prefix: string, createdAt: int, expiresAt: int,
                           revokedAt: Option<int>)

  type Users = map<string, User>
  type Keys = map<string, APIKey>

  datatype Tables = Tables(users: Users, keys: Keys)

  /** COLLATE NOCASE. */
  predicate SameHandle(a: string, b: string) { Lower(a) == Lower(b) }

  /** One letter, or its other case. */
  predicate SameLetter(a: char, b: char) {
    || a == b
    || ('a' <= a <= 'z' && 'A' <= b <= 'Z' && a as int - b as int == 32)
    || ('a' <= b <= 'z' && 'A' <= a <= 'Z' && b as int - a as int == 32)
  }

  /** Handles are the same letter by letter, upper and lower case alike. */
  lemma SameHandleExactly(a: string, b: string)
    ensures SameHandle(a, b) <==> |a| == |b| && forall k :: 0 <= k < |a| ==> SameLetter(a[k], b[k])
  {
    if SameHandle(a, b) {
      assert |Lower(a)| == |a| && |Lower(b)| == |b|;
      forall k | 0 <= k < |a| ensures SameLetter(a[k], b[k]) { assert Lower(a)[k] == Lower(b)[k]; }
    }
  }

  /** Two NULLs are not equal. */
  predicate SameSubject(a: Option<string>, b: Option<string>) { a.Some? && a == b }

  ghost predicate UsersIndexed(users: Users) {
    && (forall id :: id in users ==> users[id].id == id)
    && (forall i, j :: i in users && j in users && SameHandle(users[i].handle, users[j].handle) ==> i == j)
    && (forall i, j :: i in users && j in users && SameSubject(users[i].ssoSubject, users[j].ssoSubject) ==> i == j)
  }

  ghost predicate KeysIndexed(users: Users, keys: Keys) {
    && (forall id :: id in keys ==> keys[id].id == id && keys[id].userId in users)
    && (forall i, j :: i in keys && j in keys && keys[i].hash == keys[j].hash ==> i == j)
  }

  /** What the primary keys and the unique indexes enforce. */
  ghost predicate Indexed(t: Tables) { UsersIndexed(t.users) && KeysIndexed(t.users, t.keys) }

  function UserByHandle(t: Tables, handle: string): (r: Option<User>)
    requires Indexed(t)
    ensures r.Some? ==> r.value.id in t.users && t.users[r.value.id] == r.value && SameHandle(r.value.handle, handle)
    ensures r.None? ==> forall id :: id in t.users ==> !SameHandle(t.users[id].handle, handle)
  {
    if exists id :: id in t.users && SameHandle(t.users[id].handle, handle) then
      var id :| id in t.users && SameHandle(t.users[id].handle, handle);
      Some(t.users[id])
    else None
  }

  function UserBySSOSubject(t: Tables, sub: string): (r: Option<User>)
    requires Indexed(t)
    ensures r.Some? ==> r.value.id in t.users && t.users[r.value.id] == r.value && r.value.ssoSubject == Some(sub)
    ensures r.None? ==> forall id :: id in t.users ==> t.users[id].ssoSubject != Some(sub)
  {
    if exists id :: id in t.users && t.users[id].ssoSubject == Some(sub) then
      var id :| id in t.users && t.users[id].ssoSubject == Some(sub);
      Some(t.users[id])
    else None
  }

  function KeyByHash(t: Tables, hash: string): (r: Option<APIKey>)
    requires Indexed(t)
    ensures r.Some? ==> r.value.id in t.keys && t.keys[r.value.id] == r.value && r.value.hash == hash
    ensures r.None? ==> forall id :: id in t.keys ==> t.keys[id].hash != hash
  {
    if exists id :: id in t.keys && t.keys[id].hash == hash then
      var id :| id in t.keys && t.keys[id].hash == hash;
      Some(t.keys[id])
    else None
  }

  // ---- commits ----

  datatype Commit = AddUser(user: User) | AddKey(key: APIKey) | Revoke(keyId: string, at: int)

  /** No unique index forbids the row; an update finds an unrevoked row. */
  ghost predicate Allowed(t: Tables, c: Commit) {
    match c
    case AddUser(u) =>
      && u.active && u.id !in t.users
      && (forall id :: id in t.users ==> !SameHandle(t.users[id].handle, u.handle))
      && (forall id :: id in t.users ==> !SameSubject(t.users[id].ssoSubject, u.ssoSubject))
    case AddKey(k) =>
      && k.revokedAt == None && k.userId in t.users && k.id !in t.keys
      && (forall id :: id in t.keys ==> t.keys[id].hash != k.hash)
    case Revoke(id, at) => id in t.keys && t.keys[id].revokedAt == None
  }

  ghost function Apply(t: Tables, c: Commit): Tables
    requires Allowed(t, c)
  {
    match c
    case AddUser(u) => t.(users := t.users[u.id := u])
    case AddKey(k) => t.(keys := t.keys[k.id := k])
    case Revoke(id, at) => t.(keys := t.keys[id := t.keys[id].(revokedAt := Some(at))])
  }

  ghost predicate Possible(t: Tables, run: seq<Commit>)
    decreases |run|
  {
    run != [] ==> Allowed(t, run[0]) && Possible(Apply(t, run[0]), run[1..])
  }

  ghost function After(t: Tables, run: seq<Commit>): Tables
    requires Possible(t, run)
    decreases |run|
  {
    if run == [] then t else After(Apply(t, run[0]), run[1..])
  }

  lemma {:induction false} RunSplit(t: Tables, a: seq<Commit>, b: seq<Commit>)
    requires Possible(t, a)
    ensures Possible(t, a + b) <==> Possible(After(t, a), b)
    ensures Possible(After(t, a), b) ==> After(t, a + b) == After(After(t, a), b)
    decreases |a|
  {
    if a == [] {
      assert a + b == b;
    } else {
      assert (a + b)[1..] == a[1..] + b;
      RunSplit(Apply(t, a[0]), a[1..], b);
    }
  }

  lemma RunSnoc(t: Tables, run: seq<Commit>, c: Commit)
    requires Possible(t, run) && Allowed(After(t, run), c)
    ensures Possible(t, run + [c]) && After(t, run + [c]) == Apply(After(t, run), c)
  {
    RunSplit(t, run, [c]);
    assert [c][1..] == [];
  }

  /** The whole history of a key row: it stays, it never changes, except that it may be
      revoked, once and for good. */
  ghost predicate KeyKept(before: APIKey, after: APIKey) {
    after == before || (before.revokedAt == None && after.revokedAt.Some? && after == before.(revokedAt := after.revokedAt))
  }

  const ROLES := {"owner", "agent"}

  ghost predicate RolesKnown(t: Tables) { forall id :: id in t.users ==> t.users[id].role in ROLES }

  /** The run creates users of the two roles only. */
  ghost predicate CreatesKnown(run: seq<Commit>) { forall c :: c in run && c.AddUser? ==> c.user.role in ROLES }

  /** Revocation is permanent; users stay; the indexes stay valid. */
  lemma {:induction false} RunKeeps(t: Tables, run: seq<Commit>)
    requires Possible(t, run) && Indexed(t)
    ensures Indexed(After(t, run))
    ensures forall id :: id in t.users ==> id in After(t, run).users && After(t, run).users[id] == t.users[id]
    ensures forall id :: id in t.keys ==> id in After(t, run).keys && KeyKept(t.keys[id], After(t, run).keys[id])
    decreases |run|
  {
    if run != [] {
      StepKeeps(t, run[0]);
      RunKeeps(Apply(t, run[0]), run[1..]);
    }
  }

  lemma {:induction false} RunKeepsRoles(t: Tables, run: seq<Commit>)
    requires Possible(t, run) && CreatesKnown(run) && RolesKnown(t)
    ensures RolesKnown(After(t, run))
    decreases |run|
  {
    if run != [] {
      assert run[0] in run;
      RunKeepsRoles(Apply(t, run[0]), run[1..]);
    }
  }

  lemma StepKeeps(t: Tables, c: Commit)
    requires Indexed(t) && Allowed(t, c)
    ensures Indexed(Apply(t, c))
    ensures forall id :: id in t.users ==> id in Apply(t, c).users && Apply(t, c).users[id] == t.users[id]
    ensures forall id :: id in t.keys ==> id in Apply(t, c).keys && KeyKept(t.keys[id], Apply(t, c).keys[id])
  {
    match c
    case AddUser(u) => NewUserIndexed(t.users, t.keys, u);
    case AddKey(k) => NewKeyIndexed(t.users, t.keys, k);
    case Revoke(id, at) => RevokedIndexed(t.users, t.keys, id, at);
  }

  lemma SameHandleSymmetric(a: string, b: string)
    ensures SameHandle(a, b) == SameHandle(b, a)
  {}

  lemma NewUserIndexed(users: Users, keys: Keys, u: User)
    requires UsersIndexed(users) && KeysIndexed(users, keys) && Allowed(Tables(users, keys), AddUser(u))
    ensures UsersIndexed(users[u.id := u]) && KeysIndexed(users[u.id := u], keys)
  {
    var next := users[u.id := u];
    forall i, j | i in next && j in next && SameHandle(next[i].handle, next[j].handle) ensures i == j {
      if i != j {
        SameHandleSymmetric(next[i].handle, next[j].handle);
      }
    }
  }

  lemma NewKeyIndexed(users: Users, keys: Keys, k: APIKey)
    requires KeysIndexed(users, keys) && Allowed(Tables(users, keys), AddKey(k))
    ensures KeysIndexed(users, keys[k.id := k])
  {}

  lemma RevokedIndexed(users: Users, keys: Keys, id: string, at: int)
    requires KeysIndexed(users, keys) && id in keys
    ensures KeysIndexed(users, keys[id := keys[id].(revokedAt := Some(at))])
  {}

  /** The user's unrevoked keys. */
  function Live(keys: Keys, user: string): set<string> {
    set id | id in keys && keys[id].userId == user && keys[id].revokedAt == None
  }
}
