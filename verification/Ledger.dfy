/** The server's ledger of usage events, its two label tables, and the ingestion endpoint
    (internal/domain/usage/repo.go, internal/domain/usage/service.go,
    internal/transport/publicapi/usage_handler.go). */
module Ledger {
  import opened Basics
  import opened Transcript
  import opened Pricing

  const SOURCE := "claude_code"

  datatype Event = Event(id: string, sessionId: string, actor: string, path: string, machine: string, model: string,
                         scanRoot: string, tokens: Tokens, cost: int, source: string, createdAt: int)

  /** An event as the collector sends it: no cost, no source. */
  datatype IngestEvent = IngestEvent(id: string, sessionId: string, actor: string, path: string, machine: string,
                                     model: string, scanRoot: string, tokens: Tokens, timestamp: int)

  datatype ScanRootReport = ScanRootReport(path: string, name: string, sourceType: string)

  datatype Request = Request(installId: string, hostname: string, scanRoots: seq<ScanRootReport>, events: seq<IngestEvent>)

  datatype MachineRow = MachineRow(hostname: string, lastSeenAt: int)
  datatype RootRow = RootRow(name: string, sourceType: string, lastSeenAt: int)

  type Rows = map<string, Event>
  type RootTable = map<(string, string), RootRow>

  /** usage_events by id, machines by install id, scan_roots by (install id, path). */
  datatype Tables = Tables(events: Rows, machines: map<string, MachineRow>, scanRoots: RootTable)

  const EMPTY_TABLES := Tables(map[], map[], map[])

  /** The three figures the console totals. */
  datatype Measure = TokenCount | Cost | Turns

  function TokensFor(t: Tokens): int { t.input + t.output + t.cacheRead + t.cacheCreation }

  function Amount(m: Measure, e: Event): int {
    match m case TokenCount => TokensFor(e.tokens) case Cost => e.cost case Turns => 1
  }

  function Any(): Event -> bool { (e: Event) => true }

  function RowAmount(table: Rows, p: Event -> bool, m: Measure): string -> int {
    id => if id in table && p(table[id]) then Amount(m, table[id]) else 0
  }

  /** A figure summed over all ledger rows that meet a condition. */
  ghost function LedgerSum(table: Rows, p: Event -> bool, m: Measure): int {
    SumOver(table.Keys, RowAmount(table, p, m))
  }

  // ---- the figures, counter by counter ----

  ghost function InputSum(table: Rows, p: Event -> bool): int {
    SumOver(table.Keys, id => if id in table && p(table[id]) then table[id].tokens.input else 0)
  }

  ghost function OutputSum(table: Rows, p: Event -> bool): int {
    SumOver(table.Keys, id => if id in table && p(table[id]) then table[id].tokens.output else 0)
  }

  ghost function CacheReadSum(table: Rows, p: Event -> bool): int {
    SumOver(table.Keys, id => if id in table && p(table[id]) then table[id].tokens.cacheRead else 0)
  }

  ghost function CacheCreationSum(table: Rows, p: Event -> bool): int {
    SumOver(table.Keys, id => if id in table && p(table[id]) then table[id].tokens.cacheCreation else 0)
  }

  ghost function CostSum(table: Rows, p: Event -> bool): int {
    SumOver(table.Keys, id => if id in table && p(table[id]) then table[id].cost else 0)
  }

  /** Tokens are the four counters together, cost the rows' costs, turns the number of rows. */
  ghost predicate Spelled(table: Rows, p: Event -> bool, tokens: int, cost: int, turns: int) {
    && tokens == InputSum(table, p) + OutputSum(table, p) + CacheReadSum(table, p) + CacheCreationSum(table, p)
    && cost == CostSum(table, p)
    && turns == |set id | id in table && p(table[id])|
  }

  lemma TokensSpelled(table: Rows, p: Event -> bool)
    ensures LedgerSum(table, p, TokenCount) ==
            InputSum(table, p) + OutputSum(table, p) + CacheReadSum(table, p) + CacheCreationSum(table, p)
  {
    var input: string -> int := id => if id in table && p(table[id]) then table[id].tokens.input else 0;
    var output: string -> int := id => if id in table && p(table[id]) then table[id].tokens.output else 0;
    var read: string -> int := id => if id in table && p(table[id]) then table[id].tokens.cacheRead else 0;
    var creation: string -> int := id => if id in table && p(table[id]) then table[id].tokens.cacheCreation else 0;
    var two: string -> int := id => input(id) + output(id);
    var three: string -> int := id => two(id) + read(id);
    SumAdd(table.Keys, two, input, output);
    SumAdd(table.Keys, three, two, read);
    SumAdd(table.Keys, RowAmount(table, p, TokenCount), three, creation);
  }

  lemma {:induction false} OnesCount(keys: set<string>, f: string -> int)
    requires forall k :: k in keys ==> f(k) == 1
    ensures SumOver(keys, f) == |keys|
  {
    if keys != {} {
      var k :| k in keys;
      SumRemove(keys, f, k);
      OnesCount(keys - {k}, f);
    }
  }

  lemma FiguresSpelled(table: Rows, p: Event -> bool)
    ensures Spelled(table, p, LedgerSum(table, p, TokenCount), LedgerSum(table, p, Cost), LedgerSum(table, p, Turns))
  {
    TokensSpelled(table, p);
    SumCongruent(table.Keys, RowAmount(table, p, Cost), id => if id in table && p(table[id]) then table[id].cost else 0);
    var met := set id | id in table && p(table[id]);
    SumWiden(met, table.Keys, RowAmount(table, p, Turns));
    OnesCount(met, RowAmount(table, p, Turns));
  }

  // ---- insert or ignore ----

  function InsertOne(rows: Rows, e: Event): Rows { if e.id in rows then rows else rows[e.id := e] }

  function InsertAll(rows: Rows, batch: seq<Event>): Rows
    decreases |batch|
  {
    if batch == [] then rows else InsertAll(InsertOne(rows, batch[0]), batch[1..])
  }

  function Ids(batch: seq<Event>): set<string> { set e | e in batch :: e.id }

  /** Two batches in turn are one batch of both. */
  lemma {:induction false} InsertAllSplit(rows: Rows, a: seq<Event>, b: seq<Event>)
    ensures InsertAll(rows, a + b) == InsertAll(InsertAll(rows, a), b)
    decreases |a|
  {
    if a == [] {
      assert a + b == b;
    } else {
      assert (a + b)[1..] == a[1..] + b;
      InsertAllSplit(InsertOne(rows, a[0]), a[1..], b);
    }
  }

  lemma IdsFirst(batch: seq<Event>)
    requires batch != []
    ensures Ids(batch) == {batch[0].id} + Ids(batch[1..]) && forall e :: e in batch[1..] ==> e in batch
  {
    assert batch == [batch[0]] + batch[1..];
  }

  /** Rows already there stay as they are; exactly the ids of the batch are added. */
  lemma {:induction false} InsertAllKeeps(rows: Rows, batch: seq<Event>)
    ensures forall id :: id in rows ==> id in InsertAll(rows, batch) && InsertAll(rows, batch)[id] == rows[id]
    ensures InsertAll(rows, batch).Keys == rows.Keys + Ids(batch)
    ensures forall id :: id in InsertAll(rows, batch) && id !in rows ==>
              InsertAll(rows, batch)[id] in batch && InsertAll(rows, batch)[id].id == id
    decreases |batch|
  {
    if batch != [] {
      InsertAllKeeps(InsertOne(rows, batch[0]), batch[1..]);
      IdsFirst(batch);
    }
  }

  /** Of several events with one new id the first is stored. */
  lemma {:induction false} InsertAllFirst(rows: Rows, batch: seq<Event>, k: nat)
    requires k < |batch| && batch[k].id !in rows && forall j :: 0 <= j < k ==> batch[j].id != batch[k].id
    ensures batch[k].id in InsertAll(rows, batch) && InsertAll(rows, batch)[batch[k].id] == batch[k]
    decreases |batch|
  {
    if k == 0 {
      InsertAllKeeps(InsertOne(rows, batch[0]), batch[1..]);
    } else {
      assert batch[1..][k - 1] == batch[k];
      InsertAllFirst(InsertOne(rows, batch[0]), batch[1..], k - 1);
    }
  }

  /** Sending a batch again changes nothing. */
  lemma ResendChangesNothing(rows: Rows, batch: seq<Event>)
    ensures InsertAll(InsertAll(rows, batch), batch) == InsertAll(rows, batch)
  {
    InsertAllKeeps(rows, batch);
    InsertAllKeeps(InsertAll(rows, batch), batch);
  }

  /** The number of new distinct ids in a batch. */
  function NewIds(rows: Rows, batch: seq<Event>): nat { |Ids(batch) - rows.Keys| }

  lemma NewIdsIsGrowth(rows: Rows, batch: seq<Event>)
    ensures |InsertAll(rows, batch)| == |rows| + NewIds(rows, batch)
  {
    InsertAllKeeps(rows, batch);
    assert InsertAll(rows, batch).Keys == rows.Keys + (Ids(batch) - rows.Keys);
    assert |InsertAll(rows, batch).Keys| == |InsertAll(rows, batch)| && |rows.Keys| == |rows|;
  }

  /** The counts of two batches in turn add up to the count of both at once. */
  lemma NewIdsSplit(rows: Rows, a: seq<Event>, b: seq<Event>)
    ensures NewIds(rows, a) + NewIds(InsertAll(rows, a), b) == NewIds(rows, a + b)
  {
    InsertAllKeeps(rows, a);
    assert Ids(a + b) == Ids(a) + Ids(b);
    CountInTurn(rows.Keys, Ids(a), Ids(b));
  }

  lemma CountInTurn(known: set<string>, a: set<string>, b: set<string>)
    ensures |a - known| + |b - (known + a)| == |(a + b) - known|
  {
    assert (a + b) - known == (a - known) + (b - (known + a));
  }

  // ---- what one request does ----

  /** Where the database fails while a request is served, if it does. */
  datatype Fault = NoFault | MachineFault | RootFault(at: nat) | InsertFault

  datatype Response = Unauthorized | ServerError | Created(received: nat, inserted: nat)

  /** IngestBatch prices each event itself and stamps the source. */
  function Priced(e: IngestEvent): Event {
    Event(e.id, e.sessionId, e.actor, e.path, e.machine, e.model, e.scanRoot, e.tokens,
          CostForUsage(e.model, e.tokens), SOURCE, e.timestamp)
  }

  function PricedAll(events: seq<IngestEvent>): seq<Event> {
    seq(|events|, i requires 0 <= i < |events| => Priced(events[i]))
  }

  function UpsertRoots(roots: RootTable, install: string, reports: seq<ScanRootReport>, now: int): RootTable
    decreases |reports|
  {
    if reports == [] then roots
    else UpsertRoots(roots[(install, reports[0].path) := RootRow(reports[0].name, reports[0].sourceType, now)],
                     install, reports[1..], now)
  }

  function WithMachine(t: Tables, req: Request, now: int): Tables {
    t.(machines := t.machines[req.installId := MachineRow(req.hostname, now)])
  }

  function WithRoots(t: Tables, req: Request, upto: nat, now: int): Tables
    requires upto <= |req.scanRoots|
  {
    var t1 := WithMachine(t, req, now);
    t1.(scanRoots := UpsertRoots(t1.scanRoots, req.installId, req.scanRoots[..upto], now))
  }

  /** The three effects in their order, each cut short where the fault strikes. */
  function Ingest(t: Tables, req: Request, now: int, fault: Fault): (Tables, Response) {
    if fault.MachineFault? then (t, ServerError)
    else if fault.RootFault? && fault.at < |req.scanRoots| then (WithRoots(t, req, fault.at, now), ServerError)
    else
      var t2 := WithRoots(t, req, |req.scanRoots|, now);
      if fault.InsertFault? && req.events != [] then (t2, ServerError)
      else
        var batch := PricedAll(req.events);
        (t2.(events := InsertAll(t.events, batch)), Created(|req.events|, NewIds(t.events, batch)))
  }

  class Repo {
    var events: Rows
    var machines: map<string, MachineRow>
    var scanRoots: RootTable

    ghost function State(): Tables reads this { Tables(events, machines, scanRoots) }

    constructor ()
      ensures State() == EMPTY_TABLES
    {
      events, machines, scanRoots := map[], map[], map[];
    }

    /** One transaction: a fault leaves no row of the batch behind. */
    method InsertBatch(batch: seq<Event>, fault: Fault) returns (inserted: nat, ok: bool)
      modifies this
      ensures ok <==> !fault.InsertFault?
      ensures ok ==> State() == old(State()).(events := InsertAll(old(events), batch))
      ensures ok ==> inserted == NewIds(old(events), batch)
      ensures !ok ==> State() == old(State()) && inserted == 0
    {
      var tx := events;
      inserted := 0;
      for i := 0 to |batch|
        invariant InsertAll(tx, batch[i..]) == InsertAll(old(events), batch)
        invariant inserted == |tx| - |old(events)|
        invariant events == old(events) && machines == old(machines) && scanRoots == old(scanRoots)
      {
        assert batch[i..][0] == batch[i] && batch[i..][1..] == batch[i + 1..];
        if batch[i].id !in tx {
          tx := tx[batch[i].id := batch[i]];
          inserted := inserted + 1;
        }
      }
      if fault.InsertFault? {
        return 0, false;
      }
      NewIdsIsGrowth(events, batch);
      events := tx;
      return inserted, true;
    }

    method UpsertMachine(installId: string, hostname: string, now: int)
      modifies this
      ensures State() == old(State()).(machines := old(machines)[installId := MachineRow(hostname, now)])
    {
      machines := machines[installId := MachineRow(hostname, now)];
    }

    method UpsertScanRoot(installId: string, path: string, name: string, sourceType: string, now: int)
      modifies this
      ensures State() == old(State()).(scanRoots := old(scanRoots)[(installId, path) := RootRow(name, sourceType, now)])
    {
      scanRoots := scanRoots[(installId, path) := RootRow(name, sourceType, now)];
    }
  }

  class Service {
    const repo: Repo

    constructor (repo: Repo)
      ensures this.repo == repo
    {
      this.repo := repo;
    }

    method IngestBatch(events: seq<IngestEvent>, fault: Fault) returns (received: nat, inserted: nat, ok: bool)
      modifies repo
      ensures received == |events|
      ensures ok <==> events == [] || !fault.InsertFault?
      ensures ok ==> repo.State() == old(repo.State()).(events := InsertAll(old(repo.events), PricedAll(events)))
      ensures ok ==> inserted == NewIds(old(repo.events), PricedAll(events))
      ensures !ok ==> repo.State() == old(repo.State())
    {
      received := |events|;
      if received == 0 {
        assert PricedAll(events) == [];
        return 0, 0, true;
      }
      var batch: seq<Event> := [];
      for i := 0 to |events|
        invariant batch == PricedAll(events)[..i]
      {
        batch := batch + [Priced(events[i])];
      }
      assert batch == PricedAll(events);
      inserted, ok := repo.InsertBatch(batch, fault);
    }

    method UpsertScanRoots(installId: string, reports: seq<ScanRootReport>, now: int, fault: Fault) returns (ok: bool)
      modifies repo
      ensures ok <==> !(fault.RootFault? && fault.at < |reports|)
      ensures repo.State() == old(repo.State()).(scanRoots :=
                UpsertRoots(old(repo.scanRoots), installId, if ok then reports else reports[..fault.at], now))
    {
      ghost var all := if fault.RootFault? && fault.at < |reports| then reports[..fault.at] else reports;
      for i := 0 to |reports|
        invariant i <= |all|
        invariant repo.State() == old(repo.State()).(scanRoots := repo.scanRoots)
        invariant UpsertRoots(repo.scanRoots, installId, all[i..], now) ==
                  UpsertRoots(old(repo.scanRoots), installId, all, now)
      {
        if fault == RootFault(i) {
          assert all[i..] == [];
          return false;
        }
        assert all[i..][0] == reports[i] && all[i..][1..] == all[i + 1..];
        repo.UpsertScanRoot(installId, reports[i].path, reports[i].name, reports[i].sourceType, now);
      }
      ok := true;
    }

    /** IngestUsageEventsBatch. */
    method IngestUsageEventsBatch(authenticated: bool, req: Request, now: int, fault: Fault) returns (resp: Response)
      modifies repo
      ensures !authenticated ==> resp == Unauthorized && repo.State() == old(repo.State())
      ensures authenticated ==> (repo.State(), resp) == Ingest(old(repo.State()), req, now, fault)
    {
      if !authenticated {
        return Unauthorized;
      }
      if fault.MachineFault? {
        return ServerError;
      }
      repo.UpsertMachine(req.installId, req.hostname, now);
      assert req.scanRoots[..|req.scanRoots|] == req.scanRoots;
      var rootsOk := UpsertScanRoots(req.installId, req.scanRoots, now, fault);
      if !rootsOk {
        return ServerError;
      }
      var received, inserted, ok := IngestBatch(req.events, fault);
      if !ok {
        return ServerError;
      }
      return Created(received, inserted);
    }
  }

  // ---- what every reachable server state keeps ----

  ghost predicate WellKeyed(rows: Rows) { forall id :: id in rows ==> rows[id].id == id }

  /** Every ledger row's machine and scan root are registered. */
  ghost predicate Registered(t: Tables) {
    forall id :: id in t.events ==>
      t.events[id].machine in t.machines && (t.events[id].machine, t.events[id].scanRoot) in t.scanRoots
  }

  /** A batch as the collector builds it: one machine, every scan root reported. */
  ghost predicate CollectorMade(req: Request) {
    forall e :: e in req.events ==>
      e.machine == req.installId && exists rep :: rep in req.scanRoots && rep.path == e.scanRoot
  }

  lemma {:induction false} UpsertRootsKeys(roots: RootTable, install: string, reports: seq<ScanRootReport>, now: int)
    ensures UpsertRoots(roots, install, reports, now).Keys ==
            roots.Keys + set rep | rep in reports :: (install, rep.path)
    decreases |reports|
  {
    if reports != [] {
      UpsertRootsKeys(roots[(install, reports[0].path) := RootRow(reports[0].name, reports[0].sourceType, now)],
                      install, reports[1..], now);
      assert reports == [reports[0]] + reports[1..];
    }
  }

  lemma RowsOfPriced(events: seq<IngestEvent>, e: Event)
    ensures e in PricedAll(events) <==> exists i :: i in events && Priced(i) == e
  {
    if e in PricedAll(events) {
      var k :| 0 <= k < |events| && PricedAll(events)[k] == e;
      assert events[k] in events;
    }
    if i :| i in events && Priced(i) == e {
      var k :| 0 <= k < |events| && events[k] == i;
      assert PricedAll(events)[k] == e;
    }
  }

  function EventIds(events: seq<IngestEvent>): set<string> { set e | e in events :: e.id }

  lemma PricedIds(events: seq<IngestEvent>)
    ensures Ids(PricedAll(events)) == EventIds(events)
  {
    forall e | e in events ensures Priced(e) in PricedAll(events) { RowsOfPriced(events, Priced(e)); }
    forall e | e in PricedAll(events) ensures exists i :: i in events && i.id == e.id { RowsOfPriced(events, e); }
  }

  /** The row keeps every field of the event, stamps the source and prices it. */
  predicate StoredAs(row: Event, e: IngestEvent) {
    && row.id == e.id && row.sessionId == e.sessionId && row.actor == e.actor && row.path == e.path
    && row.machine == e.machine && row.model == e.model && row.scanRoot == e.scanRoot && row.tokens == e.tokens
    && row.createdAt == e.timestamp && row.source == "claude_code" && row.cost == CostForUsage(e.model, e.tokens)
  }

  /** Wherever a request is cut short, no row changes, every new row is a priced event of
      the request, and a 201 answer means all its events are in the ledger. */
  lemma IngestRows(t: Tables, req: Request, now: int, fault: Fault)
    ensures var (after, resp) := Ingest(t, req, now, fault);
            && (forall id :: id in t.events ==> id in after.events && after.events[id] == t.events[id])
            && (forall id :: id in after.events && id !in t.events ==>
                 after.events[id].id == id
                 && exists e :: e in req.events && after.events[id] == Priced(e) && StoredAs(after.events[id], e))
            && (resp.Created? ==> after.events.Keys == t.events.Keys + EventIds(req.events))
  {
    var batch, after := PricedAll(req.events), Ingest(t, req, now, fault).0;
    InsertAllKeeps(t.events, batch);
    PricedIds(req.events);
    forall id | id in after.events && id !in t.events
      ensures exists e :: e in req.events && after.events[id] == Priced(e) && StoredAs(after.events[id], e)
    {
      RowsOfPriced(req.events, after.events[id]);
    }
  }

  ghost predicate RowsKept(before: Rows, after: Rows) {
    forall id :: id in before ==> id in after && after[id] == before[id]
  }

  ghost predicate LastReport(reports: seq<ScanRootReport>, path: string, k: int) {
    0 <= k < |reports| && reports[k].path == path && forall j :: k < j < |reports| ==> reports[j].path != path
  }

  /** The last report of a path wins; roots not reported stay as they are. */
  lemma {:induction false} UpsertRootsExactly(roots: RootTable, install: string, reports: seq<ScanRootReport>, now: int,
                                              key: (string, string))
    ensures var after := UpsertRoots(roots, install, reports, now);
            if key.0 == install && (exists k :: 0 <= k < |reports| && reports[k].path == key.1) then
              key in after && exists k :: LastReport(reports, key.1, k) && after[key] == RootRow(reports[k].name, reports[k].sourceType, now)
            else (key in after <==> key in roots) && (key in roots ==> after[key] == roots[key])
    decreases |reports|
  {
    if reports != [] {
      var first, rest := reports[0], reports[1..];
      UpsertRootsExactly(roots[(install, first.path) := RootRow(first.name, first.sourceType, now)], install, rest, now, key);
      assert forall k :: 0 <= k < |rest| ==> rest[k] == reports[k + 1];
      if key.0 == install && exists k :: 0 <= k < |reports| && reports[k].path == key.1 {
        if k :| 0 <= k < |rest| && rest[k].path == key.1 {
          var l :| LastReport(rest, key.1, l)
                && UpsertRoots(roots, install, reports, now)[key] == RootRow(rest[l].name, rest[l].sourceType, now);
          assert forall j :: 0 < j < |reports| ==> reports[j] == rest[j - 1];
          assert LastReport(reports, key.1, l + 1);
        } else {
          assert forall j :: 0 < j < |reports| ==> reports[j] == rest[j - 1];
          assert LastReport(reports, key.1, 0);
        }
      }
    }
  }

  /** A request is answered 201 exactly when no fault strikes it, with the number of its events
      and of its new ids; the machine's row is written first, whatever follows. */
  lemma IngestAnswers(t: Tables, req: Request, now: int, fault: Fault)
    ensures var (after, resp) := Ingest(t, req, now, fault);
            var strikes := fault.MachineFault? || (fault.RootFault? && fault.at < |req.scanRoots|)
                           || (fault.InsertFault? && req.events != []);
            && (if strikes then resp == ServerError && after.events == t.events
                else resp == Created(|req.events|, |(set e | e in req.events :: e.id) - t.events.Keys|))
            && after.machines == (if fault.MachineFault? then t.machines else t.machines[req.installId := MachineRow(req.hostname, now)])
            && (fault.MachineFault? ==> after == t)
            && (!fault.MachineFault? && !(fault.RootFault? && fault.at < |req.scanRoots|) ==>
                 after.scanRoots == UpsertRoots(t.scanRoots, req.installId, req.scanRoots, now))
  {
    PricedIds(req.events);
    assert req.scanRoots[..|req.scanRoots|] == req.scanRoots;
  }

  lemma IngestLabels(t: Tables, req: Request, now: int, fault: Fault)
    ensures var after := Ingest(t, req, now, fault).0;
            && t.machines.Keys <= after.machines.Keys && t.scanRoots.Keys <= after.scanRoots.Keys
            && (after.events != t.events ==>
                 req.installId in after.machines
                 && forall rep :: rep in req.scanRoots ==> (req.installId, rep.path) in after.scanRoots)
  {
    var k := if fault.RootFault? && fault.at < |req.scanRoots| then fault.at else |req.scanRoots|;
    UpsertRootsKeys(t.scanRoots, req.installId, req.scanRoots[..k], now);
    assert k == |req.scanRoots| ==> req.scanRoots[..k] == req.scanRoots;
  }

  /** After any request of a collector, failed partway or not, the ledger is still keyed
      by event id and every row's machine and scan root are registered. */
  lemma IngestKeeps(t: Tables, req: Request, now: int, fault: Fault)
    requires WellKeyed(t.events) && Registered(t) && CollectorMade(req)
    ensures var after := Ingest(t, req, now, fault).0; WellKeyed(after.events) && Registered(after)
  {
    IngestRows(t, req, now, fault);
    IngestLabels(t, req, now, fault);
  }

  /** What a served request does, in one place. */
  lemma ServedFacts(t: Tables, req: Request, now: int, fault: Fault)
    requires WellKeyed(t.events) && Registered(t) && CollectorMade(req)
    ensures var (after, resp) := Ingest(t, req, now, fault);
            && WellKeyed(after.events) && Registered(after) && RowsKept(t.events, after.events)
            && t.events.Keys <= after.events.Keys
            && (resp.Created? ==> EventIds(req.events) <= after.events.Keys)
  {
    IngestRows(t, req, now, fault);
    IngestKeeps(t, req, now, fault);
  }
}
