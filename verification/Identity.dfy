/** Issuing, rotating and revoking API keys, and who a request acts as
    (internal/identity/service.go, internal/identity/repo.go,
    internal/transport/bff/json_middleware.go, cmd/seed/main.go). */
module Identity {
  import opened Basics
  import opened Accounts

  const OWNER_HANDLE := "owner"
  const KEY_PREFIX_LENGTH := 12
  /** In nanoseconds, like every instant here. */
  const KEY_TTL := 90 * 24 * 3600 * 1_000_000_000

  /** A raw key as generateRawAPIKey makes them, and the ids the database layer makes up. */
  datatype Fresh = Fresh(userId: string, keyId: string, raw: string)

  datatype Issued = Issued(user: User, key: APIKey, rawKey: string)

  datatype Rotated = Rotated(user: User, key: APIKey, rawKey: string, revokedCount: nat)

  /** `hash` is HashAPIKey, `verify` the JWT verifier when one is wired in. */
  datatype Seams = Seams(hash: string -> string, verify: Option<string -> Option<string>>)

  // ---- who a bearer credential acts as ----

  /** unicode.IsSpace */
  predicate IsSpace(c: char) {
    '\t' <= c <= '\r' || c == ' ' || c == '\U{0085}' || c == '\U{00A0}' || c == '\U{1680}' ||
    '\U{2000}' <= c <= '\U{200A}' || c == '\U{2028}' || c == '\U{2029}' || c == '\U{202F}' || c == '\U{205F}' || c == '\U{3000}'
  }

  function TrimLeft(s: string): string { if s != "" && IsSpace(s[0]) then TrimLeft(s[1..]) else s }

  function TrimRight(s: string): string {
    if s != "" && IsSpace(s[|s| - 1]) then TrimRight(s[..|s| - 1]) else s
  }

  function BearerToken(header: string): Option<string> {
    if "Bearer " <= header then
      var token := TrimRight(TrimLeft(header[7..]));
      if token == "" then None else Some(token)
    else None
  }

  predicate AllSpace(s: string) { forall k :: 0 <= k < |s| ==> IsSpace(s[k]) }

  lemma {:induction false} TrimLeftShape(s: string) returns (pad: string)
    ensures s == pad + TrimLeft(s) && AllSpace(pad)
    ensures TrimLeft(s) != "" ==> !IsSpace(TrimLeft(s)[0])
  {
    pad := "";
    if s != "" && IsSpace(s[0]) {
      var rest := TrimLeftShape(s[1..]);
      pad := [s[0]] + rest;
    }
  }

  lemma {:induction false} TrimRightShape(s: string) returns (pad: string)
    ensures s == TrimRight(s) + pad && AllSpace(pad)
    ensures TrimRight(s) != "" ==> !IsSpace(TrimRight(s)[|TrimRight(s)| - 1])
  {
    pad := "";
    if s != "" && IsSpace(s[|s| - 1]) {
      var rest := TrimRightShape(s[..|s| - 1]);
      pad := rest + [s[|s| - 1]];
    }
  }

  lemma TrimShape(s: string) returns (left: string, right: string)
    ensures var token := TrimRight(TrimLeft(s));
            && s == left + token + right && AllSpace(left) && AllSpace(right)
            && (token == "" ==> AllSpace(s))
            && (token != "" ==> !IsSpace(token[0]) && !IsSpace(token[|token| - 1]))
  {
    left := TrimLeftShape(s);
    right := TrimRightShape(TrimLeft(s));
    assert TrimRight(TrimLeft(s)) != "" ==> TrimLeft(s)[0] == TrimRight(TrimLeft(s))[0];
  }

  /** A token is what stands between the scheme and the end, with no space at either side. */
  lemma BearerTokenShape(header: string) returns (left: string, right: string)
    ensures match BearerToken(header)
            case None => !("Bearer " <= header) || AllSpace(header[7..])
            case Some(token) => && token != "" && !IsSpace(token[0]) && !IsSpace(token[|token| - 1])
                                && header == "Bearer " + left + token + right && AllSpace(left) && AllSpace(right)
  {
    left, right := "", "";
    if "Bearer " <= header {
      left, right := TrimShape(header[7..]);
      assert header == "Bearer " + header[7..];
    }
  }

  predicate Trimmed(token: string) { token != "" && !IsSpace(token[0]) && !IsSpace(token[|token| - 1]) }

  lemma {:induction false} TrimLeftOf(pad: string, rest: string)
    requires AllSpace(pad) && rest != "" && !IsSpace(rest[0])
    ensures TrimLeft(pad + rest) == rest
  {
    if pad == "" {
      assert pad + rest == rest;
    } else {
      assert (pad + rest)[1..] == pad[1..] + rest;
      TrimLeftOf(pad[1..], rest);
    }
  }

  lemma {:induction false} TrimRightOf(token: string, pad: string)
    requires AllSpace(pad) && Trimmed(token)
    ensures TrimRight(token + pad) == token
  {
    if pad == "" {
      assert token + pad == token;
    } else {
      var n := |pad| - 1;
      assert (token + pad)[..|token + pad| - 1] == token + pad[..n];
      TrimRightOf(token, pad[..n]);
    }
  }

  /** The header carries this token: between the scheme and the end, apart from spaces. */
  ghost predicate CarriesToken(header: string, token: string) {
    exists left: string, right: string :: Surrounds(header, left, token, right)
  }

  ghost predicate Surrounds(header: string, left: string, token: string, right: string) {
    Trimmed(token) && AllSpace(left) && AllSpace(right) && header == "Bearer " + left + token + right
  }

  lemma BearerTokenExactly(header: string, token: string)
    ensures BearerToken(header) == Some(token) <==> CarriesToken(header, token)
  {
    if BearerToken(header) == Some(token) {
      var left, right := BearerTokenShape(header);
      assert Surrounds(header, left, token, right);
    }
    if left: string, right: string :| Surrounds(header, left, token, right) {
      BearerTokenFound(header, left, token, right);
    }
  }

  lemma BearerTokenFound(header: string, left: string, token: string, right: string)
    requires Surrounds(header, left, token, right)
    ensures BearerToken(header) == Some(token)
  {
    var scheme := "Bearer ";
    assert header == scheme + (left + (token + right)) && |scheme| == 7;
    assert header[..7] == scheme && header[7..] == left + (token + right);
    TrimLeftOf(left, token + right);
    TrimRightOf(token, right);
  }

  /** No role but "owner" is turned away here. */
  function Gate(user: User): Option<User> { if user.role == "owner" || !user.active then None else Some(user) }

  datatype KeyMatch = NoSuchKey | Refused | Matched(user: User)

  function TryAPIKey(t: Tables, seams: Seams, token: string, now: int): KeyMatch
    requires Indexed(t)
  {
    match KeyByHash(t, seams.hash(token))
    case None => NoSuchKey
    case Some(key) =>
      if key.revokedAt.Some? || key.expiresAt <= now then Refused
      else if key.userId !in t.users then Refused
      else Matched(t.users[key.userId])
  }

  function TryJWT(t: Tables, seams: Seams, token: string): Option<User>
    requires Indexed(t)
  {
    match seams.verify
    case None => None
    case Some(verify) => match verify(token) case None => None case Some(sub) => UserBySSOSubject(t, sub)
  }

  /** None is ErrUnauthorized, whatever the reason. */
  function ResolveActor(t: Tables, seams: Seams, header: string, now: int): Option<User>
    requires Indexed(t)
  {
    match BearerToken(header)
    case None => None
    case Some(token) =>
      match TryAPIKey(t, seams, token, now)
      case Refused => None
      case Matched(user) => Gate(user)
      case NoSuchKey => match TryJWT(t, seams, token) case None => None case Some(user) => Gate(user)
  }

  /** `session` is the user id the cookie carries, if it verifies. */
  function RequireJSONSession(t: Tables, session: Option<string>): Option<User> {
    if session.None? || session.value !in t.users then None
    else
      var user := t.users[session.value];
      if user.role == "agent" || !user.active then None else Some(user)
  }

  // ---- the key and user operations ----

  class Service {
    var users: Users
    var keys: Keys
    const seams: Seams

    ghost function State(): Tables reads this { Tables(users, keys) }

    constructor (seams: Seams)
      ensures State() == Tables(map[], map[]) && this.seams == seams
    {
      users, keys, this.seams := map[], map[], seams;
    }

    method CreateUser(id: string, handle: string, role: string, ssoSubject: Option<string>) returns (r: Option<User>)
      modifies this
      ensures var u := User(id, handle, role, true, ssoSubject);
              if Allowed(old(State()), AddUser(u)) then r == Some(u) && State() == Apply(old(State()), AddUser(u))
              else r == None && State() == old(State())
    {
      var u := User(id, handle, role, true, ssoSubject);
      if id in users || (exists i :: i in users && SameHandle(users[i].handle, handle))
         || (exists i :: i in users && SameSubject(users[i].ssoSubject, ssoSubject)) {
        return None;
      }
      users := users[id := u];
      return Some(u);
    }

    method CreateAPIKey(id: string, userId: string, hash: string, prefix: string, now: int, expiresAt: int)
      returns (r: Option<APIKey>)
      requires userId in users
      modifies this
      ensures var k := APIKey(id, userId, hash, prefix, now, expiresAt, None);
              if Allowed(old(State()), AddKey(k)) then r == Some(k) && State() == Apply(old(State()), AddKey(k))
              else r == None && State() == old(State())
    {
      if id in keys || exists i :: i in keys && keys[i].hash == hash {
        return None;
      }
      var k := APIKey(id, userId, hash, prefix, now, expiresAt, None);
      keys := keys[id := k];
      return Some(k);
    }

    /** Only the caller's own, still unrevoked key is found. */
    method RevokeAPIKey(id: string, userId: string, now: int) returns (r: Option<APIKey>)
      modifies this
      ensures if id in old(keys) && old(keys)[id].userId == userId && old(keys)[id].revokedAt == None
              then Allowed(old(State()), Revoke(id, now)) && State() == Apply(old(State()), Revoke(id, now)) && r == Some(keys[id])
              else r == None && State() == old(State())
    {
      if id in keys && keys[id].userId == userId && keys[id].revokedAt.None? {
        keys := keys[id := keys[id].(revokedAt := Some(now))];
        return Some(keys[id]);
      }
      return None;
    }

    method RevokeAPIKeyByID(id: string, now: int) returns (r: Option<APIKey>)
      modifies this
      ensures if Allowed(old(State()), Revoke(id, now)) then State() == Apply(old(State()), Revoke(id, now)) && r == Some(keys[id])
              else r == None && State() == old(State())
    {
      if id in keys && keys[id].revokedAt.None? {
        keys := keys[id := keys[id].(revokedAt := Some(now))];
        return Some(keys[id]);
      }
      return None;
    }

    /** The user's unrevoked keys, each once, in whatever order the query returns them. */
    method ListAPIKeysByOwner(userId: string) returns (listed: seq<APIKey>)
      requires Indexed(State())
      ensures IsListing(listed, keys, Live(keys, userId))
    {
      listed := [];
      var rest := Live(keys, userId);
      while rest != {}
        invariant rest <= Live(keys, userId)
        invariant IsListing(listed, keys, Live(keys, userId) - rest)
        decreases rest
      {
        var id :| id in rest;
        assert Live(keys, userId) - (rest - {id}) - {id} == Live(keys, userId) - rest;
        rest := rest - {id};
        ListOneMore(listed, keys, Live(keys, userId) - rest - {id}, id);
        assert Live(keys, userId) - rest == Live(keys, userId) - rest - {id} + {id};
        listed := listed + [keys[id]];
      }
    }

    /** Each revocation is a commit of its own; `trace` lists them. None fails. */
    method DisableOtherAPIKeys(userId: string, keepId: string, clock: nat -> int)
      returns (count: nat, ok: bool, ghost trace: seq<Commit>)
      requires Indexed(State())
      modifies this
      ensures ok && count == |Live(old(keys), userId) - {keepId}|
      ensures RevokedAlong(old(State()), State(), trace, Live(old(keys), userId) - {keepId})
      ensures Live(keys, userId) - {keepId} == {}
    {
      var live := ListAPIKeysByOwner(userId);
      count, ok, trace := 0, true, [];
      while live != [] && ok
        invariant ok
        invariant Midway(old(State()), State(), live, userId, keepId, count, trace)
        decreases |live|
      {
        var key := live[0];
        if key.id == keepId {
          SkipStep(old(State()), State(), live, userId, keepId, count, trace);
        } else {
          var at := clock(count);
          RevokeStep(old(State()), State(), live, userId, keepId, count, trace, at);
          var revoked := RevokeAPIKey(key.id, userId, at);
          ok := revoked.Some?;
          trace := trace + [Revoke(key.id, at)];
          count := count + 1;
        }
        live := live[1..];
      }
    }

    /** Any user of that handle gets the key, an owner too. */
    method IssueAPIKeyForHandle(handle: string, made: Fresh, now: int)
      returns (r: Option<Issued>, ghost trace: seq<Commit>)
      requires Indexed(State()) && |made.raw| >= KEY_PREFIX_LENGTH
      modifies this
      ensures Possible(old(State()), trace) && State() == After(old(State()), trace)
      ensures UserByHandle(old(State()), handle).Some? ==> users == old(users)
      ensures CreatesKnown(trace)
      ensures r.Some? ==> r.value.user == KeyHolder(old(State()), handle, made)
      ensures var known, agent := UserByHandle(old(State()), handle), User(made.userId, handle, "agent", true, None);
              && (r.Some? <==> (known.Some? || Allowed(old(State()), AddUser(agent))) && KeyFree(old(keys), made.keyId, seams.hash(made.raw)))
              && (r.Some? ==> r.value.rawKey == made.raw
                              && r.value.key == NewKey(r.value.user.id, made, seams, now)
                              && trace == (if known.Some? then [] else [AddUser(agent)]) + [AddKey(r.value.key)])
              && (r.None? ==> trace == [] || (known.None? && trace == [AddUser(agent)]))
    {
      trace := [];
      var found := UserByHandle(Tables(users, keys), handle);
      if found.None? {
        found := CreateUser(made.userId, handle, "agent", None);
        if found.None? {
          return None, [];
        }
        trace := [AddUser(found.value)];
        assert trace[1..] == [];
      }
      var key := CreateAPIKey(made.keyId, found.value.id, seams.hash(made.raw), made.raw[..KEY_PREFIX_LENGTH], now, now + KEY_TTL);
      if key.None? {
        return None, trace;
      }
      RunSnoc(old(State()), trace, AddKey(key.value));
      trace := trace + [AddKey(key.value)];
      r := Some(Issued(found.value, key.value, made.raw));
    }

    /** The new key is committed first, then every other unrevoked key of the user is
        revoked. It fails only when no user has the handle or the new key's id or hash is
        taken. */
    method Rotate(handle: string, made: Fresh, now: int, clock: nat -> int)
      returns (r: Option<Rotated>, ghost trace: seq<Commit>)
      requires Indexed(State()) && |made.raw| >= KEY_PREFIX_LENGTH
      modifies this
      ensures Possible(old(State()), trace) && State() == After(old(State()), trace)
      ensures var user := UserByHandle(old(State()), handle);
              r.Some? <==> user.Some? && Allowed(old(State()), AddKey(NewKey(user.value.id, made, seams, now)))
      ensures r.None? ==> trace == []
      ensures CreatesKnown(trace) && users == old(users)
      ensures r.Some? ==>
                && r.value.user == UserByHandle(old(State()), handle).value == KeyHolder(old(State()), handle, made)
                && r.value.key == NewKey(r.value.user.id, made, seams, now) && r.value.rawKey == made.raw
                && IsRotation(old(keys), r.value.key, trace)
                && Live(keys, r.value.user.id) == {made.keyId}
                && r.value.revokedCount == |Live(old(keys), r.value.user.id)|
                && RotatedKeys(old(keys), keys, r.value.key)
    {
      var user := UserByHandle(Tables(users, keys), handle);
      if user.None? {
        return None, [];
      }
      var key := CreateAPIKey(made.keyId, user.value.id, seams.hash(made.raw), made.raw[..KEY_PREFIX_LENGTH], now, now + KEY_TTL);
      if key.None? {
        return None, [];
      }
      ghost var between := State();
      NewKeyIsLive(old(State()), key.value);
      var count, ok, rest := DisableOtherAPIKeys(user.value.id, made.keyId, clock);
      trace := [AddKey(key.value)] + rest;
      RotationDone(old(State()), State(), key.value, rest);
      RotationCreatesNobody(old(State()), key.value, trace);
      RotationSpelled(old(State()), State(), key.value, trace);
      r := Some(Rotated(user.value, key.value, made.raw, count));
    }

    /** SeedOwner. None is an error: no subject, or a user already has the owner's handle. */
    method SeedOwner(ssoSubject: string, newId: string) returns (r: Option<(User, bool)>, ghost trace: seq<Commit>)
      requires Indexed(State())
      modifies this
      ensures Possible(old(State()), trace) && State() == After(old(State()), trace)
      ensures keys == old(keys) && CreatesKnown(trace)
      ensures ssoSubject == "" ==> r == None
      ensures r.None? ==> State() == old(State())
      ensures r.Some? <==> ssoSubject != "" && (UserBySSOSubject(old(State()), ssoSubject).Some?
                           || Allowed(old(State()), AddUser(User(newId, OWNER_HANDLE, "owner", true, Some(ssoSubject)))))
      ensures r.Some? ==> var (u, existed) := r.value;
                && u.id in users && users[u.id] == u && u.ssoSubject == Some(ssoSubject)
                && (existed <==> UserBySSOSubject(old(State()), ssoSubject).Some?)
                && (if existed then State() == old(State()) else u == User(newId, OWNER_HANDLE, "owner", true, Some(ssoSubject)) && u.handle == "owner")
    {
      trace := [];
      if ssoSubject == "" {
        return None, [];
      }
      var existing := UserBySSOSubject(Tables(users, keys), ssoSubject);
      if existing.Some? {
        return Some((existing.value, true)), [];
      }
      var created := CreateUser(newId, OWNER_HANDLE, "owner", Some(ssoSubject));
      if created.None? {
        return None, [];
      }
      trace := [AddUser(created.value)];
      assert trace[1..] == [];
      return Some((created.value, false)), trace;
    }
  }

  function NewKey(userId: string, made: Fresh, seams: Seams, now: int): APIKey
    requires |made.raw| >= KEY_PREFIX_LENGTH
  {
    APIKey(made.keyId, userId, seams.hash(made.raw), made.raw[..KEY_PREFIX_LENGTH], now, now + KEY_TTL, None)
  }

  /** Whom a new key for `handle` belongs to: the user of that handle, else a new agent. */
  function KeyHolder(t: Tables, handle: string, made: Fresh): User
    requires Indexed(t)
  {
    match UserByHandle(t, handle) case Some(user) => user case None => User(made.userId, handle, "agent", true, None)
  }

  predicate KeyFree(keys: Keys, id: string,
                    hash: string) { id !in keys && forall i :: i in keys ==> keys[i].hash != hash }

  function IdsOf(listed: seq<APIKey>): set<string> { set k | k in listed :: k.id }

  ghost predicate IsListing(listed: seq<APIKey>, keys: Keys, ids: set<string>) {
    && IdsOf(listed) == ids
    && (forall k :: k in listed ==> k.id in keys && keys[k.id] == k)
    && (forall i, j :: 0 <= i < j < |listed| ==> listed[i].id != listed[j].id)
  }

  lemma FirstOfListing(listed: seq<APIKey>, keys: Keys)
    requires listed != [] && IsListing(listed, keys, IdsOf(listed))
    ensures IsListing(listed[1..], keys, IdsOf(listed[1..]))
    ensures IdsOf(listed) == IdsOf(listed[1..]) + {listed[0].id} && listed[0].id !in IdsOf(listed[1..])
  {
    assert listed == [listed[0]] + listed[1..];
  }

  lemma ListOneMore(listed: seq<APIKey>, keys: Keys, ids: set<string>, id: string)
    requires IsListing(listed, keys, ids) && id in keys && keys[id].id == id && id !in ids
    ensures IsListing(listed + [keys[id]], keys, ids + {id})
  {
    assert forall k :: k in listed ==> k.id in IdsOf(listed);
    assert forall k :: k in listed + [keys[id]] <==> k in listed || k == keys[id];
  }

  // ---- disabling the other keys ----

  /** The keys still to revoke are exactly those of the unprocessed part of the snapshot. */
  ghost predicate Disabling(before: Keys, keys: Keys, rest: seq<APIKey>, userId: string, keepId: string, count: nat) {
    && IsListing(rest, before, IdsOf(rest))
    && Live(keys, userId) - {keepId} == IdsOf(rest) - {keepId}
    && count + |IdsOf(rest) - {keepId}| == |Live(before, userId) - {keepId}|
  }

  /** `trace` leads from one state to the other by revoking keys among `ids`. */
  ghost predicate RevokedAlong(before: Tables, t: Tables, trace: seq<Commit>, ids: set<string>) {
    && Possible(before, trace) && t == After(before, trace)
    && (forall c :: c in trace ==> c.Revoke? && c.keyId in ids)
  }

  lemma RevokeAlong(before: Tables, t: Tables, trace: seq<Commit>, ids: set<string>, id: string, at: int)
    requires RevokedAlong(before, t, trace, ids) && Allowed(t, Revoke(id, at)) && id in ids
    ensures RevokedAlong(before, Apply(t, Revoke(id, at)), trace + [Revoke(id, at)], ids)
  {
    RunSnoc(before, trace, Revoke(id, at));
  }

  lemma SkipKept(before: Keys, keys: Keys, rest: seq<APIKey>, userId: string, keepId: string, count: nat)
    requires Disabling(before, keys, rest, userId, keepId, count) && rest != [] && rest[0].id == keepId
    ensures Disabling(before, keys, rest[1..], userId, keepId, count)
  {
    FirstOfListing(rest, before);
    assert IdsOf(rest) - {keepId} == IdsOf(rest[1..]) - {keepId};
  }

  lemma {:induction false} StaysLive(t: Tables, trace: seq<Commit>, id: string, userId: string)
    requires Possible(t, trace) && (forall c :: c in trace ==> c.Revoke?) && id in Live(After(t, trace).keys, userId)
    ensures id in Live(t.keys, userId)
    decreases |trace|
  {
    if trace != [] {
      assert trace[0] in trace;
      StaysLive(Apply(t, trace[0]), trace[1..], id, userId);
    }
  }

  lemma OneFewer(live: set<string>, id: string, rest: set<string>, keepId: string)
    requires live - {keepId} == (rest + {id}) - {keepId} && id != keepId && id !in rest
    ensures id in live && (live - {id}) - {keepId} == rest - {keepId}
    ensures |(rest + {id}) - {keepId}| == |rest - {keepId}| + 1
  {
    assert id in (rest + {id}) - {keepId};
    assert (rest + {id}) - {keepId} == (rest - {keepId}) + {id};
  }

  lemma RevokeFirst(before: Keys, keys: Keys, rest: seq<APIKey>, userId: string, keepId: string, count: nat, at: int)
    requires Disabling(before, keys, rest, userId, keepId, count) && rest != [] && rest[0].id != keepId
    ensures rest[0].id in Live(keys, userId)
    ensures Disabling(before, keys[rest[0].id := keys[rest[0].id].(revokedAt := Some(at))], rest[1..], userId, keepId, count + 1)
  {
    var id := rest[0].id;
    FirstOfListing(rest, before);
    OneFewer(Live(keys, userId), id, IdsOf(rest[1..]), keepId);
    LiveAfterRevoke(keys, userId, id, at);
  }

  lemma LiveAfterRevoke(keys: Keys, userId: string, id: string, at: int)
    requires id in keys
    ensures Live(keys[id := keys[id].(revokedAt := Some(at))], userId) == Live(keys, userId) - {id}
  {}

  ghost predicate Midway(before: Tables, t: Tables, rest: seq<APIKey>, userId: string, keepId: string, count: nat,
                         trace: seq<Commit>)
  {
    && Disabling(before.keys, t.keys, rest, userId, keepId, count)
    && RevokedAlong(before, t, trace, Live(before.keys, userId) - {keepId})
  }

  lemma SkipStep(before: Tables, t: Tables, rest: seq<APIKey>, userId: string, keepId: string, count: nat,
                 trace: seq<Commit>)
    requires Midway(before, t, rest, userId, keepId, count, trace) && rest != [] && rest[0].id == keepId
    ensures Midway(before, t, rest[1..], userId, keepId, count, trace)
  {
    SkipKept(before.keys, t.keys, rest, userId, keepId, count);
  }

  lemma RevokeStep(before: Tables, t: Tables, rest: seq<APIKey>, userId: string, keepId: string, count: nat,
                   trace: seq<Commit>, at: int)
    requires Midway(before, t, rest, userId, keepId, count, trace) && rest != [] && rest[0].id != keepId
    ensures rest[0].id in Live(t.keys, userId) && Allowed(t, Revoke(rest[0].id, at))
    ensures Midway(before, Apply(t, Revoke(rest[0].id, at)), rest[1..], userId, keepId, count + 1, trace + [Revoke(rest[0].id, at)])
  {
    var id := rest[0].id;
    RevokeFirst(before.keys, t.keys, rest, userId, keepId, count, at);
    StaysLive(before, trace, id, userId);
    RevokeAlong(before, t, trace, Live(before.keys, userId) - {keepId}, id, at);
  }

  lemma NewKeyIsLive(t: Tables, key: APIKey)
    requires Indexed(t) && Allowed(t, AddKey(key))
    ensures Indexed(Apply(t, AddKey(key)))
    ensures Live(Apply(t, AddKey(key)).keys, key.userId) == Live(t.keys, key.userId) + {key.id}
    ensures Live(Apply(t, AddKey(key)).keys, key.userId) - {key.id} == Live(t.keys, key.userId)
  {}

  // ---- what a rotation goes through ----

  /** The new key first; after it only revocations of keys its user held before. */
  ghost predicate IsRotation(before: Keys, key: APIKey, trace: seq<Commit>) {
    && trace != [] && trace[0] == AddKey(key)
    && forall c :: c in trace[1..] ==> c.Revoke? && c.keyId in Live(before, key.userId) && c.keyId != key.id
  }

  lemma {:induction false} UsersUntouched(t: Tables, trace: seq<Commit>)
    requires Possible(t, trace) && forall c :: c in trace ==> !c.AddUser?
    ensures After(t, trace).users == t.users
    decreases |trace|
  {
    if trace != [] {
      assert trace[0] in trace;
      UsersUntouched(Apply(t, trace[0]), trace[1..]);
    }
  }

  lemma RotationCreatesNobody(t: Tables, key: APIKey, trace: seq<Commit>)
    requires Possible(t, trace) && IsRotation(t.keys, key, trace)
    ensures CreatesKnown(trace) && After(t, trace).users == t.users
  {
    assert trace == [trace[0]] + trace[1..];
    assert forall c :: c in trace ==> c == trace[0] || c in trace[1..];
    UsersUntouched(t, trace);
  }

  /** Of the user's keys only the new one is unrevoked; other users' rows are as they were. */
  ghost predicate RotatedKeys(before: Keys, after: Keys, key: APIKey) {
    && (forall id :: id in after && after[id].userId == key.userId ==> (after[id].revokedAt == None <==> id == key.id))
    && (forall id :: id in before && before[id].userId != key.userId ==> id in after && after[id] == before[id])
  }

  lemma RotationSpelled(before: Tables, after: Tables, key: APIKey, trace: seq<Commit>)
    requires Indexed(before) && Possible(before, trace) && IsRotation(before.keys, key, trace)
    requires after == After(before, trace) && Live(after.keys, key.userId) == {key.id}
    ensures RotatedKeys(before.keys, after.keys, key)
  {
    OthersUntouched(before, key, trace);
    forall id | id in after.keys && after.keys[id].userId == key.userId
      ensures after.keys[id].revokedAt == None <==> id == key.id
    {
      assert id in Live(after.keys, key.userId) <==> after.keys[id].revokedAt == None;
    }
  }

  lemma OthersUntouched(t: Tables, key: APIKey, trace: seq<Commit>)
    requires Indexed(t) && Possible(t, trace) && IsRotation(t.keys, key, trace)
    ensures forall id :: id in t.keys && t.keys[id].userId != key.userId ==>
              id in After(t, trace).keys && After(t, trace).keys[id] == t.keys[id]
  {
    assert trace[..|trace|] == trace;
    forall id | id in t.keys && t.keys[id].userId != key.userId
      ensures id in After(t, trace).keys && After(t, trace).keys[id] == t.keys[id]
    {
      RotationNeverLocksOut(t, key, trace, |trace|, id);
    }
  }

  lemma RotationDone(before: Tables, after: Tables, key: APIKey, rest: seq<Commit>)
    requires Indexed(before) && Allowed(before, AddKey(key))
    requires RevokedAlong(Apply(before, AddKey(key)), after, rest, Live(Apply(before, AddKey(key)).keys, key.userId) - {key.id})
    requires Live(after.keys, key.userId) - {key.id} == {}
    ensures var trace := [AddKey(key)] + rest;
            Possible(before, trace) && after == After(before, trace) && IsRotation(before.keys, key, trace)
    ensures Live(after.keys, key.userId) == {key.id}
  {
    var trace := [AddKey(key)] + rest;
    assert trace[1..] == rest;
    NewKeyIsLive(before, key);
    RevokesKeep(Apply(before, AddKey(key)), rest, key.id);
    assert key.id in Live(after.keys, key.userId);
  }

  lemma {:induction false} RevokesKeep(t: Tables, trace: seq<Commit>, id: string)
    requires Possible(t, trace) && id in t.keys && forall c :: c in trace ==> c.Revoke? && c.keyId != id
    ensures id in After(t, trace).keys && After(t, trace).keys[id] == t.keys[id]
    decreases |trace|
  {
    if trace != [] {
      assert trace[0] in trace;
      RevokesKeep(Apply(t, trace[0]), trace[1..], id);
    }
  }

  /** Stopped anywhere after its first commit, a rotation leaves the new key unrevoked, and
      it touches no key of another user. */
  lemma RotationNeverLocksOut(t: Tables, key: APIKey, trace: seq<Commit>, k: nat, other: string)
    requires Indexed(t) && Possible(t, trace) && IsRotation(t.keys, key, trace) && 1 <= k <= |trace|
    ensures Possible(t, trace[..k])
    ensures var t' := After(t, trace[..k]);
            && key.id in Live(t'.keys, key.userId)
            && (other in t.keys && t.keys[other].userId != key.userId ==> other in t'.keys && t'.keys[other] == t.keys[other])
  {
    assert trace == trace[..k] + trace[k..];
    RunSplitFront(t, trace[..k], trace[k..]);
    var first, rest := Apply(t, trace[0]), trace[..k][1..];
    assert forall c :: c in rest ==> c in trace[1..];
    RevokesKeep(first, rest, key.id);
    if other in t.keys && t.keys[other].userId != key.userId { RevokesKeep(first, rest, other); }
  }

  lemma {:induction false} RunSplitFront(t: Tables, a: seq<Commit>, b: seq<Commit>)
    requires Possible(t, a + b)
    ensures Possible(t, a)
    decreases |a|
  {
    if a != [] {
      assert (a + b)[1..] == a[1..] + b;
      RunSplitFront(Apply(t, a[0]), a[1..], b);
    }
  }

  // ---- owners and keys ----

  /** The handle is an owner's, upper and lower case alike. */
  ghost predicate OwnerNamed(t: Tables, handle: string) {
    exists id :: id in t.users && SameHandle(t.users[id].handle, handle) && t.users[id].role == "owner"
  }

  /** A key issued or rotated for a handle is an owner's key if and only if the handle names
      an owner. */
  lemma HolderIsOwner(t: Tables, handle: string, made: Fresh)
    requires Indexed(t)
    ensures KeyHolder(t, handle, made).role == "owner" <==> OwnerNamed(t, handle)
  {
    if id :| id in t.users && SameHandle(t.users[id].handle, handle) && t.users[id].role == "owner" {
      var found := UserByHandle(t, handle);
      assert found.Some?;
      assert SameHandle(t.users[found.value.id].handle, t.users[id].handle);
    }
  }

  predicate OwnsKey(t: Tables, key: APIKey) { key.userId in t.users && t.users[key.userId].role == "owner" }

  ghost predicate OwnerHoldsKey(t: Tables) { exists id :: id in t.keys && OwnsKey(t, t.keys[id]) }

  /** Some commit of the run gives a key to a user who is an owner at that moment. */
  ghost predicate GivesOwnerKey(t: Tables, run: seq<Commit>)
    requires Possible(t, run)
    decreases |run|
  {
    run != [] && ((run[0].AddKey? && OwnsKey(t, run[0].key)) || GivesOwnerKey(Apply(t, run[0]), run[1..]))
  }

  /** Over every run, an owner holds a key row if and only if one did before or some commit
      gave an owner a key. */
  lemma {:induction false} OwnerKeysExactly(t: Tables, run: seq<Commit>)
    requires Indexed(t) && Possible(t, run)
    ensures OwnerHoldsKey(After(t, run)) <==> OwnerHoldsKey(t) || GivesOwnerKey(t, run)
    decreases |run|
  {
    if run != [] {
      StepKeeps(t, run[0]);
      OwnerKeyStep(t, run[0]);
      OwnerKeysExactly(Apply(t, run[0]), run[1..]);
    }
  }

  lemma OwnerKeyStep(t: Tables, c: Commit)
    requires Indexed(t) && Allowed(t, c)
    ensures OwnerHoldsKey(Apply(t, c)) <==> OwnerHoldsKey(t) || (c.AddKey? && OwnsKey(t, c.key))
  {
    match c
    case AddUser(u) => OwnerKeysWithUser(t, u);
    case AddKey(k) => OwnerKeysWithKey(t, k);
    case Revoke(id, at) => OwnerKeysRevoked(t, id, at);
  }

  lemma OwnerKeysWithUser(t: Tables, u: User)
    requires Indexed(t) && u.id !in t.users
    ensures OwnerHoldsKey(t.(users := t.users[u.id := u])) <==> OwnerHoldsKey(t)
  {
    var t' := t.(users := t.users[u.id := u]);
    assert forall id :: id in t.keys ==> OwnsKey(t', t.keys[id]) == OwnsKey(t, t.keys[id]);
  }

  lemma OwnerKeysWithKey(t: Tables, k: APIKey)
    requires k.id !in t.keys
    ensures OwnerHoldsKey(t.(keys := t.keys[k.id := k])) <==> OwnerHoldsKey(t) || OwnsKey(t, k)
  {
    var t' := t.(keys := t.keys[k.id := k]);
    assert forall key :: OwnsKey(t', key) == OwnsKey(t, key);
    assert t'.keys[k.id] == k;
    if id :| id in t.keys && OwnsKey(t, t.keys[id]) { assert id in t'.keys && t'.keys[id] == t.keys[id]; }
  }

  lemma OwnerKeysRevoked(t: Tables, id: string, at: int)
    requires id in t.keys
    ensures OwnerHoldsKey(t.(keys := t.keys[id := t.keys[id].(revokedAt := Some(at))])) <==> OwnerHoldsKey(t)
  {
    var t' := t.(keys := t.keys[id := t.keys[id].(revokedAt := Some(at))]);
    assert forall i :: i in t.keys ==> i in t'.keys && OwnsKey(t', t'.keys[i]) == OwnsKey(t, t.keys[i]);
  }

  /** It does happen: seed the owner, then issue a key for the owner's handle in any case. */
  lemma OwnerCanHoldKey(sub: string, ownerId: string, handle: string, made: Fresh, seams: Seams, now: int)
    requires sub != "" && SameHandle(handle, OWNER_HANDLE) && |made.raw| >= KEY_PREFIX_LENGTH
    ensures var none, owner := Tables(map[], map[]), User(ownerId, OWNER_HANDLE, "owner", true, Some(sub));
            var key := NewKey(ownerId, made, seams, now);
            var run := [AddUser(owner)] + [AddKey(key)];
            && Possible(none, [AddUser(owner)]) && Indexed(After(none, [AddUser(owner)]))
            && KeyHolder(After(none, [AddUser(owner)]), handle, made) == owner
            && Possible(none, run) && CreatesKnown(run) && OwnerHoldsKey(After(none, run))
            && Live(After(none, run).keys, ownerId) == {made.keyId}
  {
    var none, owner := Tables(map[], map[]), User(ownerId, OWNER_HANDLE, "owner", true, Some(sub));
    var seeded, key := Tables(map[ownerId := owner], map[]), NewKey(ownerId, made, seams, now);
    assert [AddUser(owner)][1..] == [] && Apply(none, AddUser(owner)) == seeded;
    StepKeeps(none, AddUser(owner));
    RunSnoc(none, [AddUser(owner)], AddKey(key));
    var after := Apply(seeded, AddKey(key));
    assert made.keyId in after.keys && OwnsKey(after, after.keys[made.keyId]);
    assert seeded.users[ownerId] == owner && SameHandle(owner.handle, handle);
  }

  // ---- revocation and expiry ----

  /** A token that names a key row acts as the row's user exactly while the row is neither
      revoked nor expired and the user is an active non-owner. */
  lemma KeyResolvesExactly(t: Tables, seams: Seams, header: string, token: string, now: int)
    requires Indexed(t) && BearerToken(header) == Some(token) && KeyByHash(t, seams.hash(token)).Some?
    ensures var key := KeyByHash(t, seams.hash(token)).value;
            var user := t.users[key.userId];
            && (ResolveActor(t, seams, header, now).Some? <==>
                 key.revokedAt == None && now < key.expiresAt && user.role != "owner" && user.active)
            && (ResolveActor(t, seams, header, now).Some? ==> ResolveActor(t, seams, header, now).value == user)
  {}

  /** Once a token has been turned away as revoked or expired, it is turned away at every
      later time, after any further commits and whatever a JWT verifier says of it. */
  lemma RejectedForGood(t: Tables, seams: Seams, token: string, now: int, run: seq<Commit>,
                        later: int, laterSeams: Seams, header: string)
    requires Indexed(t) && TryAPIKey(t, seams, token, now) == Refused
    requires Possible(t, run) && now <= later && laterSeams.hash == seams.hash && BearerToken(header) == Some(token)
    ensures Indexed(After(t, run)) && ResolveActor(After(t, run), laterSeams, header, later) == None
  {
    RunKeeps(t, run);
    var key := KeyByHash(t, seams.hash(token)).value;
    assert key.id in After(t, run).keys && KeyKept(key, After(t, run).keys[key.id]);
  }

  // ---- admission ----

  ghost predicate IsUser(t: Tables, u: User) { u.id in t.users && t.users[u.id] == u }

  /** Bearer credentials act as active agents only, sessions as active owners only. */
  lemma AdmissionIsDisjoint(t: Tables, seams: Seams, header: string, now: int, session: Option<string>)
    requires Indexed(t) && RolesKnown(t)
    ensures var actor, owner := ResolveActor(t, seams, header, now), RequireJSONSession(t, session);
            && (actor.Some? ==> IsUser(t, actor.value) && actor.value.role == "agent" && actor.value.active)
            && (owner.Some? ==> IsUser(t, owner.value) && owner.value.role == "owner" && owner.value.active)
            && (actor.Some? && owner.Some? ==> actor.value.id != owner.value.id)
  {}

  /** A session admits exactly the stored, active user it names, if an owner. */
  lemma SessionAdmitsExactly(t: Tables, session: Option<string>, u: User)
    requires RolesKnown(t)
    ensures RequireJSONSession(t, session) == Some(u) <==>
              session.Some? && session.value in t.users && t.users[session.value] == u && u.active && u.role == "owner"
  {}

  /** The token is a live key of this user. */
  ghost predicate LiveKeyOf(t: Tables, hash: string, now: int, u: User) {
    exists id :: id in t.keys && t.keys[id].hash == hash && t.keys[id].revokedAt == None && now < t.keys[id].expiresAt
              && t.keys[id].userId == u.id
  }

  /** The token is no key at all, and the verifier takes it for this user's. */
  ghost predicate VerifiedAs(t: Tables, seams: Seams, token: string, u: User) {
    && (forall id :: id in t.keys ==> t.keys[id].hash != seams.hash(token))
    && seams.verify.Some? && seams.verify.value(token).Some? && u.ssoSubject == seams.verify.value(token)
  }

  /** A bearer credential acts as exactly the active agent who holds it as a live key, or, when
      no key row has its hash, whose subject the verifier gives. */
  lemma BearerAdmitsExactly(t: Tables, seams: Seams, header: string, now: int, u: User)
    requires Indexed(t) && RolesKnown(t)
    ensures ResolveActor(t, seams, header, now) == Some(u) <==>
              && IsUser(t, u) && u.active && u.role == "agent"
              && exists token :: CarriesToken(header, token)
                              && (LiveKeyOf(t, seams.hash(token), now, u) || VerifiedAs(t, seams, token, u))
  {
    if token :| CarriesToken(header, token) && (LiveKeyOf(t, seams.hash(token), now, u) || VerifiedAs(t, seams, token, u)) {
      BearerTokenExactly(header, token);
      TokenAdmitsExactly(t, seams, header, token, now, u);
    }
    if token :| BearerToken(header) == Some(token) {
      BearerTokenExactly(header, token);
      TokenAdmitsExactly(t, seams, header, token, now, u);
    }
  }

  lemma TokenAdmitsExactly(t: Tables, seams: Seams, header: string, token: string, now: int, u: User)
    requires Indexed(t) && RolesKnown(t) && BearerToken(header) == Some(token)
    ensures ResolveActor(t, seams, header, now) == Some(u) <==>
              IsUser(t, u) && u.active && u.role == "agent"
              && (LiveKeyOf(t, seams.hash(token), now, u) || VerifiedAs(t, seams, token, u))
  {
    match KeyByHash(t, seams.hash(token))
    case Some(key) => KeyAdmits(t, seams, header, token, now, u, key);
    case None => SubjectAdmits(t, seams, header, token, now, u);
  }

  lemma KeyAdmits(t: Tables, seams: Seams, header: string, token: string, now: int, u: User, key: APIKey)
    requires Indexed(t) && RolesKnown(t) && BearerToken(header) == Some(token) && KeyByHash(t, seams.hash(token)) == Some(key)
    ensures !VerifiedAs(t, seams, token, u)
    ensures ResolveActor(t, seams, header, now) == Some(u) <==>
              IsUser(t, u) && u.active && u.role == "agent" && LiveKeyOf(t, seams.hash(token), now, u)
  {
    assert key.id in t.keys && t.keys[key.id] == key;
    assert forall id :: id in t.keys && t.keys[id].hash == seams.hash(token) ==> id == key.id;
  }

  lemma SubjectAdmits(t: Tables, seams: Seams, header: string, token: string, now: int, u: User)
    requires Indexed(t) && RolesKnown(t) && BearerToken(header) == Some(token) && KeyByHash(t, seams.hash(token)) == None
    ensures !LiveKeyOf(t, seams.hash(token), now, u)
    ensures ResolveActor(t, seams, header, now) == Some(u) <==>
              IsUser(t, u) && u.active && u.role == "agent" && VerifiedAs(t, seams, token, u)
  {
    if seams.verify.Some? && seams.verify.value(token).Some? {
      var sub := seams.verify.value(token).value;
      if IsUser(t, u) && u.ssoSubject == Some(sub) {
        var found := UserBySSOSubject(t, sub);
        assert found.Some? && SameSubject(t.users[found.value.id].ssoSubject, t.users[u.id].ssoSubject);
      }
    }
  }

  /** Neither gate asks for the role it serves, so a user passes both exactly when its role
      is neither of the two. */
  lemma BothGatesExactly(t: Tables, user: User)
    requires Indexed(t) && IsUser(t, user)
    ensures Gate(user).Some? && RequireJSONSession(t, Some(user.id)).Some? <==> user.active && user.role !in ROLES
  {}

  /** In every state that seeding, issuing, rotating and revoking can reach, a bearer
      credential acts as exactly the active agent it belongs to, a session as exactly the
      active owner it names, and nobody is admitted by both. */
  lemma ReachableAdmission(run: seq<Commit>, seams: Seams, header: string, now: int, session: Option<string>, u: User)
    requires Possible(Tables(map[], map[]), run) && CreatesKnown(run)
    ensures var t := After(Tables(map[], map[]), run);
            && Indexed(t)
            && (ResolveActor(t, seams, header, now) == Some(u) <==>
                 && IsUser(t, u) && u.active && u.role == "agent"
                 && exists token :: CarriesToken(header, token)
                                 && (LiveKeyOf(t, seams.hash(token), now, u) || VerifiedAs(t, seams, token, u)))
            && (RequireJSONSession(t, session) == Some(u) <==>
                 session.Some? && session.value in t.users && t.users[session.value] == u && u.active && u.role == "owner")
            && (ResolveActor(t, seams, header, now).Some? && RequireJSONSession(t, session).Some? ==>
                 ResolveActor(t, seams, header, now).value.id != RequireJSONSession(t, session).value.id)
  {
    var t := After(Tables(map[], map[]), run);
    RunKeeps(Tables(map[], map[]), run);
    RunKeepsRoles(Tables(map[], map[]), run);
    AdmissionIsDisjoint(t, seams, header, now, session);
    BearerAdmitsExactly(t, seams, header, now, u);
    SessionAdmitsExactly(t, session, u);
  }

  // ---- how long a key is good ----

  /** A key issued or rotated at `now` for an active agent acts as that agent at every instant
      from then on for 90 days, whatever else is committed, as long as it is not revoked; and
      never once revoked or after. */
  lemma NewKeyGoodFor90Days(t: Tables, user: User, made: Fresh, seams: Seams, now: int, run: seq<Commit>,
                            header: string, later: int)
    requires Indexed(t) && RolesKnown(t) && IsUser(t, user) && user.active && user.role == "agent"
    requires |made.raw| >= KEY_PREFIX_LENGTH && CarriesToken(header, made.raw) && now <= later
    requires var key := NewKey(user.id, made, seams, now); Allowed(t, AddKey(key)) && Possible(Apply(t, AddKey(key)), run)
    ensures var t' := After(Apply(t, AddKey(NewKey(user.id, made, seams, now))), run);
            && Indexed(t') && made.keyId in t'.keys
            && t'.keys[made.keyId].prefix == made.raw[..12] && t'.keys[made.keyId].createdAt == now
            && (ResolveActor(t', seams, header, later) == Some(user) <==>
                 t'.keys[made.keyId].revokedAt == None && later < now + 7_776_000_000_000_000)
  {
    var key := NewKey(user.id, made, seams, now);
    var t1 := Apply(t, AddKey(key));
    StepKeeps(t, AddKey(key));
    RunKeeps(t1, run);
    BearerTokenExactly(header, made.raw);
    KeyStaysGood(After(t1, run), seams, header, made.raw, later, key, user);
  }

  lemma KeyStaysGood(t: Tables, seams: Seams, header: string, token: string, later: int, key: APIKey, user: User)
    requires Indexed(t) && IsUser(t, user) && user.active && user.role == "agent" && BearerToken(header) == Some(token)
    requires key.id in t.keys && KeyKept(key, t.keys[key.id]) && key.userId == user.id && key.hash == seams.hash(token)
    ensures ResolveActor(t, seams, header, later) == Some(user) <==> t.keys[key.id].revokedAt == None && later < key.expiresAt
  {
    var found := KeyByHash(t, seams.hash(token)).value;
    assert t.keys[found.id].hash == t.keys[key.id].hash;
  }
}
