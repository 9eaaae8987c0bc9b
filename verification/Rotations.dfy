/** Two rotations of one handle at the same time, step by step
    (internal/identity/service.go, internal/identity/repo.go). */
module Rotations {
  import opened Basics
  import opened Accounts
  import opened Identity

  datatype Stage = Starting | Added | Looping | Finished | Failed

  /** A rotation underway: the new key, the snapshot DisableOtherAPIKeys took, and how many
      entries of it are done. */
  datatype Rotator = Rotator(key: APIKey, stage: Stage, snapshot: seq<APIKey>, next: nat)

  datatype Race = Race(t: Tables, a: Rotator, b: Rotator)

  /** Whose turn it is, what a listing returns and when a revocation happens. */
  datatype Turn = Turn(first: bool, listed: seq<APIKey>, at: int)

  /** ORDER BY created_at DESC; keys made at one moment come in any order. */
  ghost predicate NewestFirst(listed: seq<APIKey>) {
    forall i, j :: 0 <= i < j < |listed| ==> listed[i].createdAt >= listed[j].createdAt
  }

  predicate Ended(r: Rotator) { r.stage.Finished? || r.stage.Failed? }

  ghost predicate CanMove(t: Tables, r: Rotator, listed: seq<APIKey>) {
    match r.stage
    case Starting => true
    case Added => IsListing(listed, t.keys, Live(t.keys, r.key.userId)) && NewestFirst(listed)
    case Looping => r.next <= |r.snapshot|
    case _ => false
  }

  /** One step: commit the new key, take the snapshot, or deal with its next entry. An entry
      that is no longer unrevoked ends the rotation with an error. */
  ghost function Move(t: Tables, r: Rotator, listed: seq<APIKey>, at: int): (Tables, Rotator)
    requires CanMove(t, r, listed)
  {
    match r.stage
    case Starting =>
      if Allowed(t, AddKey(r.key)) then (Apply(t, AddKey(r.key)), r.(stage := Added)) else (t, r.(stage := Failed))
    case Added => (t, r.(stage := Looping, snapshot := listed, next := 0))
    case Looping =>
      if r.next == |r.snapshot| then (t, r.(stage := Finished))
      else
        var id := r.snapshot[r.next].id;
        if id == r.key.id then (t, r.(next := r.next + 1))
        else if id in Live(t.keys, r.key.userId) then (Apply(t, Revoke(id, at)), r.(next := r.next + 1))
        else (t, r.(stage := Failed))
    case _ => (t, r)
  }

  function Mover(race: Race, first: bool): Rotator { if first then race.a else race.b }

  ghost predicate Enabled(race: Race, turn: Turn) { CanMove(race.t, Mover(race, turn.first), turn.listed) }

  ghost function Next(race: Race, turn: Turn): Race
    requires Enabled(race, turn)
  {
    var (t', r') := Move(race.t, Mover(race, turn.first), turn.listed, turn.at);
    if turn.first then Race(t', r', race.b) else Race(t', race.a, r')
  }

  ghost predicate Runs(race: Race, run: seq<Turn>)
    decreases |run|
  {
    run != [] ==> Enabled(race, run[0]) && Runs(Next(race, run[0]), run[1..])
  }

  ghost function Outcome(race: Race, run: seq<Turn>): Race
    requires Runs(race, run)
    decreases |run|
  {
    if run == [] then race else Outcome(Next(race, run[0]), run[1..])
  }

  // ---- what every interleaving keeps ----

  ghost predicate Holds(r: Rotator, id: string) { id in IdsOf(r.snapshot) }

  ghost predicate Reached(r: Rotator, id: string) { r.next <= |r.snapshot| && id in IdsOf(r.snapshot[..r.next]) }

  /** Two new keys of one user. */
  predicate Rivals(k: APIKey, l: APIKey) { k.userId == l.userId && k.id != l.id && k.hash != l.hash }

  /** A rotator's own key is unrevoked until its rival gets to it. */
  ghost predicate KeyTrue(t: Tables, r: Rotator, rival: Rotator) {
    if r.stage.Starting? then Allowed(t, AddKey(r.key)) && !Reached(rival, r.key.id)
    else
      && r.key.id in t.keys && t.keys[r.key.id] == r.key.(revokedAt := t.keys[r.key.id].revokedAt)
      && (t.keys[r.key.id].revokedAt == None <==> !Reached(rival, r.key.id))
  }

  ghost predicate StageTrue(t: Tables, r: Rotator) {
    && r.next <= |r.snapshot| && (forall k :: k in r.snapshot ==> k.id in t.keys)
    && (r.stage.Starting? || r.stage.Added? ==> r.snapshot == [] && r.next == 0)
    && (r.stage.Finished? ==> r.next == |r.snapshot|)
    && (r.stage.Failed? ==> r.next < |r.snapshot| && r.snapshot[r.next].id != r.key.id
                            && r.snapshot[r.next].id !in Live(t.keys, r.key.userId))
  }

  ghost predicate SnapshotTrue(r: Rotator) {
    && NewestFirst(r.snapshot)
    && (forall i, j :: 0 <= i < j < |r.snapshot| ==> r.snapshot[i].id != r.snapshot[j].id)
  }

  ghost predicate Half(t: Tables, r: Rotator, rival: Rotator) {
    KeyTrue(t, r, rival) && StageTrue(t, r) && SnapshotTrue(r)
  }

  ghost predicate RaceTrue(race: Race) {
    && Rivals(race.a.key, race.b.key)
    && (forall id :: id in race.t.keys ==> race.t.keys[id].id == id)
    && Half(race.t, race.a, race.b) && Half(race.t, race.b, race.a)
  }

  lemma AddKeeps(t: Tables, r: Rotator, rival: Rotator)
    requires RaceTrue(Race(t, r, rival)) && r.stage.Starting?
    ensures Allowed(t, AddKey(r.key)) && RaceTrue(Race(Apply(t, AddKey(r.key)), r.(stage := Added), rival))
  {}

  lemma ListKeeps(t: Tables, r: Rotator, rival: Rotator, listed: seq<APIKey>)
    requires RaceTrue(Race(t, r, rival)) && r.stage.Added? && CanMove(t, r, listed)
    ensures RaceTrue(Race(t, r.(stage := Looping, snapshot := listed, next := 0), rival))
    ensures rival.key.id in IdsOf(listed) <==> !rival.stage.Starting?
  {
    var r' := r.(stage := Looping, snapshot := listed, next := 0);
    assert listed[..0] == [];
    forall k | k in listed ensures k.id in t.keys { assert k.id in IdsOf(listed); }
    assert KeyTrue(t, rival, r');
  }

  lemma ReachedMore(r: Rotator, id: string)
    requires r.next < |r.snapshot|
    ensures Reached(r.(next := r.next + 1), id) <==> Reached(r, id) || id == r.snapshot[r.next].id
  {
    assert r.snapshot[..r.next + 1] == r.snapshot[..r.next] + [r.snapshot[r.next]];
  }

  lemma SkipKeeps(t: Tables, r: Rotator, rival: Rotator)
    requires RaceTrue(Race(t, r, rival)) && r.stage.Looping? && r.next < |r.snapshot| && r.snapshot[r.next].id == r.key.id
    ensures RaceTrue(Race(t, r.(next := r.next + 1), rival))
  {
    ReachedMore(r, rival.key.id);
  }

  lemma RevokeKeeps(t: Tables, r: Rotator, rival: Rotator, at: int)
    requires RaceTrue(Race(t, r, rival)) && r.stage.Looping? && r.next < |r.snapshot|
    requires r.snapshot[r.next].id != r.key.id && r.snapshot[r.next].id in Live(t.keys, r.key.userId)
    ensures var id := r.snapshot[r.next].id;
            Allowed(t, Revoke(id, at)) && RaceTrue(Race(Apply(t, Revoke(id, at)), r.(next := r.next + 1), rival))
  {
    var id := r.snapshot[r.next].id;
    var t', r' := Apply(t, Revoke(id, at)), r.(next := r.next + 1);
    ReachedMore(r, rival.key.id);
    LiveAfterRevoke(t.keys, r.key.userId, id, at);
    assert KeyTrue(t', r', rival);
    assert KeyTrue(t', rival, r');
    assert StageTrue(t', r') && StageTrue(t', rival);
  }

  lemma Swapped(race: Race)
    ensures RaceTrue(race) <==> RaceTrue(Race(race.t, race.b, race.a))
  {}

  lemma MoveKeeps(t: Tables, r: Rotator, rival: Rotator, listed: seq<APIKey>, at: int)
    requires RaceTrue(Race(t, r, rival)) && CanMove(t, r, listed)
    ensures var (t', r') := Move(t, r, listed, at); RaceTrue(Race(t', r', rival))
  {
    if r.stage.Starting? {
      AddKeeps(t, r, rival);
    } else if r.stage.Added? {
      ListKeeps(t, r, rival, listed);
    } else if r.next < |r.snapshot| {
      if r.snapshot[r.next].id == r.key.id {
        SkipKeeps(t, r, rival);
      } else if r.snapshot[r.next].id in Live(t.keys, r.key.userId) {
        RevokeKeeps(t, r, rival, at);
      }
    }
  }

  lemma {:induction false} RunKeepsRace(race: Race, run: seq<Turn>)
    requires RaceTrue(race) && Runs(race, run)
    ensures RaceTrue(Outcome(race, run))
    decreases |run|
  {
    if run != [] {
      var turn := run[0];
      if turn.first {
        MoveKeeps(race.t, race.a, race.b, turn.listed, turn.at);
      } else {
        Swapped(race);
        MoveKeeps(race.t, race.b, race.a, turn.listed, turn.at);
        Swapped(Next(race, turn));
      }
      RunKeepsRace(Next(race, turn), run[1..]);
    }
  }

  // ---- a rotation by itself ----

  /** What is left of the snapshot is still unrevoked, and nothing else is but the new key. */
  ghost predicate LoneTrue(t: Tables, r: Rotator) {
    && !r.stage.Failed? && r.next <= |r.snapshot|
    && (forall id :: id in t.keys ==> t.keys[id].id == id)
    && (r.stage.Starting? ==> Allowed(t, AddKey(r.key)))
    && (!r.stage.Starting? ==> r.key.id in Live(t.keys, r.key.userId))
    && (r.stage.Looping? || r.stage.Finished? ==>
         && (forall i, j :: 0 <= i < j < |r.snapshot| ==> r.snapshot[i].id != r.snapshot[j].id)
         && Live(t.keys, r.key.userId) == {r.key.id} + IdsOf(r.snapshot[r.next..]))
    && (r.stage.Finished? ==> r.next == |r.snapshot|)
  }

  lemma RestOfSnapshot(r: Rotator)
    requires r.next < |r.snapshot| && forall i, j :: 0 <= i < j < |r.snapshot| ==> r.snapshot[i].id != r.snapshot[j].id
    ensures IdsOf(r.snapshot[r.next..]) == IdsOf(r.snapshot[r.next + 1..]) + {r.snapshot[r.next].id}
    ensures r.snapshot[r.next].id !in IdsOf(r.snapshot[r.next + 1..])
  {
    assert r.snapshot[r.next..] == [r.snapshot[r.next]] + r.snapshot[r.next + 1..];
  }

  lemma LoneAdd(t: Tables, r: Rotator)
    requires LoneTrue(t, r) && r.stage.Starting?
    ensures LoneTrue(Apply(t, AddKey(r.key)), r.(stage := Added))
  {}

  lemma LoneEntry(t: Tables, r: Rotator, at: int)
    requires LoneTrue(t, r) && r.stage.Looping? && r.next < |r.snapshot|
    ensures var id := r.snapshot[r.next].id;
            if id == r.key.id then LoneTrue(t, r.(next := r.next + 1))
            else Allowed(t, Revoke(id, at)) && id in Live(t.keys, r.key.userId)
                 && LoneTrue(Apply(t, Revoke(id, at)), r.(next := r.next + 1))
  {
    var id := r.snapshot[r.next].id;
    var rest := IdsOf(r.snapshot[r.next + 1..]);
    RestOfSnapshot(r);
    assert {r.key.id} + (rest + {id}) == ({r.key.id} + rest) + {id};
    if id != r.key.id {
      LiveAfterRevoke(t.keys, r.key.userId, id, at);
      assert ({r.key.id} + rest) + {id} - {id} == {r.key.id} + rest;
    }
  }

  lemma LoneMove(t: Tables, r: Rotator, listed: seq<APIKey>, at: int)
    requires LoneTrue(t, r) && CanMove(t, r, listed)
    ensures var (t', r') := Move(t, r, listed, at); LoneTrue(t', r') && r'.key == r.key
  {
    if r.stage.Starting? {
      LoneAdd(t, r);
    } else if r.stage.Added? {
      assert listed[0..] == listed;
    } else if r.next < |r.snapshot| {
      LoneEntry(t, r, at);
    }
  }

  lemma {:induction false} LoneRun(race: Race, run: seq<Turn>)
    requires LoneTrue(race.t, race.a) && Runs(race, run) && forall turn :: turn in run ==> turn.first
    ensures LoneTrue(Outcome(race, run).t, Outcome(race, run).a) && Outcome(race, run).a.key == race.a.key
    decreases |run|
  {
    if run != [] {
      assert run[0] in run;
      LoneMove(race.t, race.a, run[0].listed, run[0].at);
      LoneRun(Next(race, run[0]), run[1..]);
    }
  }

  /** By itself a rotation never fails, and ends as Rotate does: with the new key the only
      unrevoked one. */
  lemma AloneItSucceeds(t: Tables, k: APIKey, idle: Rotator, run: seq<Turn>)
    requires Indexed(t) && Allowed(t, AddKey(k)) && Runs(Race(t, Begin(k), idle), run) && forall turn :: turn in run ==> turn.first
    ensures var end := Outcome(Race(t, Begin(k), idle), run);
            !end.a.stage.Failed? && (Ended(end.a) ==> Live(end.t.keys, k.userId) == {k.id})
  {
    LoneRun(Race(t, Begin(k), idle), run);
    var end := Outcome(Race(t, Begin(k), idle), run);
    if Ended(end.a) { assert end.a.snapshot[end.a.next..] == []; }
  }

  // ---- when two rotations leave their user without a new key ----

  function Begin(key: APIKey): Rotator { Rotator(key, Starting, [], 0) }

  /** Two rotations of one user about to start, whose new keys can both be stored. */
  ghost predicate ReadyToRace(t: Tables, k: APIKey, l: APIKey) {
    Indexed(t) && Rivals(k, l) && Allowed(t, AddKey(k)) && Allowed(t, AddKey(l))
  }

  lemma RaceStarts(t: Tables, k: APIKey, l: APIKey)
    requires ReadyToRace(t, k, l)
    ensures RaceTrue(Race(t, Begin(k), Begin(l)))
  {}

  ghost predicate NoNewKey(race: Race) {
    race.a.key.id !in Live(race.t.keys, race.a.key.userId) && race.b.key.id !in Live(race.t.keys, race.b.key.userId)
  }

  lemma ReachedHolds(r: Rotator, id: string)
    requires Reached(r, id)
    ensures Holds(r, id)
  {
    var k :| k in r.snapshot[..r.next] && k.id == id;
    assert k in r.snapshot;
  }

  /** Over every interleaving of two rotations of one handle, once both have ended the user
      is left with neither new key if and only if each had the other's key in its snapshot
      and its loop got to it. */
  lemma LockedOutExactly(t: Tables, k: APIKey, l: APIKey, run: seq<Turn>)
    requires ReadyToRace(t, k, l) && Runs(Race(t, Begin(k), Begin(l)), run)
    requires var end := Outcome(Race(t, Begin(k), Begin(l)), run); Ended(end.a) && Ended(end.b)
    ensures var end := Outcome(Race(t, Begin(k), Begin(l)), run);
            && (NoNewKey(end) <==> Reached(end.a, end.b.key.id) && Reached(end.b, end.a.key.id))
            && (Reached(end.a, end.b.key.id) ==> Holds(end.a, end.b.key.id))
            && (Reached(end.b, end.a.key.id) ==> Holds(end.b, end.a.key.id))
  {
    var end := Outcome(Race(t, Begin(k), Begin(l)), run);
    RaceStarts(t, k, l);
    RunKeepsRace(Race(t, Begin(k), Begin(l)), run);
    if Reached(end.a, end.b.key.id) { ReachedHolds(end.a, end.b.key.id); }
    if Reached(end.b, end.a.key.id) { ReachedHolds(end.b, end.a.key.id); }
  }

  /** A snapshot holds the rival's key exactly when the rival had committed it by then. */
  lemma SnapshotHoldsExactly(race: Race, turn: Turn)
    requires RaceTrue(race) && Enabled(race, turn) && Mover(race, turn.first).stage.Added?
    ensures var rival := Mover(race, !turn.first);
            Holds(Mover(Next(race, turn), turn.first), rival.key.id) <==> !rival.stage.Starting?
  {
    if turn.first {
      ListKeeps(race.t, race.a, race.b, turn.listed);
    } else {
      Swapped(race);
      ListKeeps(race.t, race.b, race.a, turn.listed);
    }
  }

  // ---- with the new keys the newest, the snapshots alone decide ----

  /** Every other unrevoked key of the user is older than both new ones. */
  ghost predicate OthersOlder(t: Tables, k: APIKey, l: APIKey) {
    forall id :: id in Live(t.keys, k.userId) && id != k.id && id != l.id ==>
      t.keys[id].createdAt < k.createdAt && t.keys[id].createdAt < l.createdAt
  }

  ghost predicate SnapshotOlder(r: Rotator, rival: APIKey) {
    forall k :: k in r.snapshot ==>
      if k.id == rival.id then k.createdAt == rival.createdAt else k.id == r.key.id || k.createdAt < rival.createdAt
  }

  ghost predicate InOrder(race: Race) {
    && OthersOlder(race.t, race.a.key, race.b.key)
    && SnapshotOlder(race.a, race.b.key) && SnapshotOlder(race.b, race.a.key)
  }

  lemma MoveKeepsOrder(t: Tables, r: Rotator, rival: Rotator, listed: seq<APIKey>, at: int)
    requires RaceTrue(Race(t, r, rival)) && InOrder(Race(t, r, rival)) && CanMove(t, r, listed)
    ensures var (t', r') := Move(t, r, listed, at); InOrder(Race(t', r', rival))
  {
    if r.stage.Starting? {
      assert forall id :: id in Live(Apply(t, AddKey(r.key)).keys, r.key.userId) ==> id == r.key.id || id in Live(t.keys, r.key.userId);
    } else if r.stage.Added? {
      forall k | k in listed
        ensures if k.id == rival.key.id then k.createdAt == rival.key.createdAt else k.id == r.key.id || k.createdAt < rival.key.createdAt
      {
        assert k.id in IdsOf(listed);
      }
    } else if r.next < |r.snapshot| {
      var id := r.snapshot[r.next].id;
      if id != r.key.id && id in Live(t.keys, r.key.userId) { LiveAfterRevoke(t.keys, r.key.userId, id, at); }
    }
  }

  lemma {:induction false} RunKeepsOrder(race: Race, run: seq<Turn>)
    requires RaceTrue(race) && InOrder(race) && Runs(race, run)
    ensures RaceTrue(Outcome(race, run)) && InOrder(Outcome(race, run))
    decreases |run|
  {
    if run != [] {
      var turn := run[0];
      if turn.first {
        MoveKeeps(race.t, race.a, race.b, turn.listed, turn.at);
        MoveKeepsOrder(race.t, race.a, race.b, turn.listed, turn.at);
      } else {
        Swapped(race);
        MoveKeeps(race.t, race.b, race.a, turn.listed, turn.at);
        MoveKeepsOrder(race.t, race.b, race.a, turn.listed, turn.at);
        Swapped(Next(race, turn));
      }
      RunKeepsOrder(Next(race, turn), run[1..]);
    }
  }

  /** Newest first, so a loop gets to its rival's key before any key it could fail on: once a
      rotation has ended it has revoked the rival's key exactly if its snapshot held it. */
  lemma EndedReaches(t: Tables, r: Rotator, rival: Rotator)
    requires RaceTrue(Race(t, r, rival)) && SnapshotOlder(r, rival.key) && Ended(r)
    ensures Reached(r, rival.key.id) <==> Holds(r, rival.key.id)
  {
    assert r.snapshot[..|r.snapshot|] == r.snapshot;
    if Reached(r, rival.key.id) { ReachedHolds(r, rival.key.id); }
    if Holds(r, rival.key.id) && r.stage.Failed? {
      var j :| 0 <= j < |r.snapshot| && r.snapshot[j].id == rival.key.id;
      FailsPastRival(t, r, rival, j);
      assert r.snapshot[..r.next][j] == r.snapshot[j];
    }
  }

  /** The entry a rotation failed on comes after its rival's key. */
  lemma FailsPastRival(t: Tables, r: Rotator, rival: Rotator, j: nat)
    requires RaceTrue(Race(t, r, rival)) && SnapshotOlder(r, rival.key) && r.stage.Failed?
    requires j < |r.snapshot| && r.snapshot[j].id == rival.key.id
    ensures j < r.next
  {
    assert r.snapshot[r.next] in r.snapshot && r.snapshot[j] in r.snapshot;
  }

  /** When the new keys are the user's newest, two ended rotations leave neither of them if and
      only if each took its snapshot after the other had committed its key. */
  lemma SnapshotsDecide(t: Tables, k: APIKey, l: APIKey, run: seq<Turn>)
    requires ReadyToRace(t, k, l) && OthersOlder(t, k, l) && Runs(Race(t, Begin(k), Begin(l)), run)
    requires var end := Outcome(Race(t, Begin(k), Begin(l)), run); Ended(end.a) && Ended(end.b)
    ensures var end := Outcome(Race(t, Begin(k), Begin(l)), run);
            NoNewKey(end) <==> Holds(end.a, end.b.key.id) && Holds(end.b, end.a.key.id)
  {
    var end := Outcome(Race(t, Begin(k), Begin(l)), run);
    LockedOutExactly(t, k, l, run);
    RaceStarts(t, k, l);
    RunKeepsOrder(Race(t, Begin(k), Begin(l)), run);
    EndedReaches(end.t, end.a, end.b);
    Swapped(end);
    EndedReaches(end.t, end.b, end.a);
  }

  // ---- it happens, whatever keys the user held ----

  lemma {:induction false} Oldest(ids: set<string>, keys: Keys) returns (id: string)
    requires ids != {} && forall i :: i in ids ==> i in keys
    ensures id in ids && forall i :: i in ids ==> keys[id].createdAt <= keys[i].createdAt
    decreases ids
  {
    id :| id in ids;
    if ids != {id} {
      assert ids == ids - {id} + {id};
      var other := Oldest(ids - {id}, keys);
      if keys[other].createdAt < keys[id].createdAt { id := other; }
    }
  }

  lemma {:induction false} Listing(ids: set<string>, keys: Keys) returns (listed: seq<APIKey>)
    requires forall i :: i in ids ==> i in keys && keys[i].id == i
    ensures IsListing(listed, keys, ids) && NewestFirst(listed)
    decreases ids
  {
    listed := [];
    if ids != {} {
      var id := Oldest(ids, keys);
      var before := Listing(ids - {id}, keys);
      ListOneMore(before, keys, ids - {id}, id);
      assert ids - {id} + {id} == ids;
      forall k | k in before ensures k.createdAt >= keys[id].createdAt { assert k.id in IdsOf(before); }
      listed := before + [keys[id]];
    }
  }

  lemma RunsCons(race: Race, turn: Turn, rest: seq<Turn>)
    requires Enabled(race, turn) && Runs(Next(race, turn), rest)
    ensures Runs(race, [turn] + rest) && Outcome(race, [turn] + rest) == Outcome(Next(race, turn), rest)
  {
    assert ([turn] + rest)[1..] == rest;
  }

  lemma {:induction false} RunsAppend(race: Race, a: seq<Turn>, b: seq<Turn>)
    requires Runs(race, a) && Runs(Outcome(race, a), b)
    ensures Runs(race, a + b) && Outcome(race, a + b) == Outcome(Outcome(race, a), b)
    decreases |a|
  {
    if a == [] {
      assert a + b == b;
    } else {
      assert (a + b)[1..] == a[1..] + b && (a + b)[0] == a[0];
      RunsAppend(Next(race, a[0]), a[1..], b);
    }
  }

  /** Left to itself, a looping rotation ends. */
  lemma {:induction false} LoopEnds(race: Race, first: bool) returns (run: seq<Turn>)
    requires Mover(race, first).stage.Looping? && Mover(race, first).next <= |Mover(race, first).snapshot|
    ensures Runs(race, run)
    ensures var end := Outcome(race, run);
            && Ended(Mover(end, first)) && Mover(end, !first) == Mover(race, !first)
            && Mover(end, first).snapshot == Mover(race, first).snapshot && Mover(end, first).key == Mover(race, first).key
    decreases |Mover(race, first).snapshot| - Mover(race, first).next, 1
  {
    var turn := Turn(first, [], 0);
    var next := Next(race, turn);
    var rest: seq<Turn> := [];
    if !Ended(Mover(next, first)) { rest := LoopEnds(next, first); }
    RunsCons(race, turn, rest);
    run := [turn] + rest;
  }

  /** Any two rotations of a user can end with neither new key, whatever keys the user held:
      both store their keys before either takes its snapshot. */
  lemma LockOutHappens(t: Tables, k: APIKey, l: APIKey) returns (run: seq<Turn>)
    requires ReadyToRace(t, k, l) && OthersOlder(t, k, l)
    ensures Runs(Race(t, Begin(k), Begin(l)), run)
    ensures var end := Outcome(Race(t, Begin(k), Begin(l)), run); Ended(end.a) && Ended(end.b) && NoNewKey(end)
  {
    var start := Race(t, Begin(k), Begin(l));
    RaceStarts(t, k, l);
    var stored := BothStored(start);
    var both := Race(Apply(Apply(t, AddKey(k)), AddKey(l)), Begin(k).(stage := Added), Begin(l).(stage := Added));
    RunKeepsRace(start, stored);
    var listed := Listing(Live(both.t.keys, k.userId), both.t.keys);
    var first, second := Turn(true, listed, 0), Turn(false, listed, 0);
    SnapshotHoldsExactly(both, first);
    var one := Next(both, first);
    RunKeepsRace(both, []);
    ListKeeps(both.t, both.a, both.b, listed);
    SnapshotHoldsExactly(one, second);
    var two := Next(one, second);
    var runA := LoopEnds(two, true);
    var afterA := Outcome(two, runA);
    var runB := LoopEnds(afterA, false);
    RunsAppend(two, runA, runB);
    RunsCons(one, second, runA + runB);
    RunsCons(both, first, [second] + (runA + runB));
    RunsAppend(start, stored, [first] + ([second] + (runA + runB)));
    run := stored + ([first] + ([second] + (runA + runB)));
    SnapshotsDecide(t, k, l, run);
  }

  lemma BothStored(start: Race) returns (run: seq<Turn>)
    requires RaceTrue(start) && start.a.stage.Starting? && start.b.stage.Starting?
    ensures Runs(start, run) && Allowed(start.t, AddKey(start.a.key)) && Allowed(Apply(start.t, AddKey(start.a.key)), AddKey(start.b.key))
    ensures Outcome(start, run) == Race(Apply(Apply(start.t, AddKey(start.a.key)), AddKey(start.b.key)),
                                        start.a.(stage := Added), start.b.(stage := Added))
  {
    var first, second := Turn(true, [], 0), Turn(false, [], 0);
    AddKeeps(start.t, start.a, start.b);
    var one := Next(start, first);
    Swapped(one);
    AddKeeps(one.t, one.b, one.a);
    RunsCons(one, second, []);
    RunsCons(start, first, [second] + []);
    run := [first] + ([second] + []);
  }
}
