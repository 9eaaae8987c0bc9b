/** The delivery protocol as a state machine: several installs whose transcripts grow and
    whose runs may stop anywhere, a network that may lose, delay and repeat requests, and a
    server that may fail partway through one (internal/collector/collector.go,
    internal/collector/state.go, internal/domain/usage/repo.go,
    internal/transport/publicapi/usage_handler.go). */
module Delivery {
  import opened Basics
  import opened Transcript
  import opened GitRoots
  import opened PathStores
  import opened IncrementalVotes
  import opened Ledger
  import opened Collector

  /** A run that has posted request number `req`: `loaded` is the sent-id set it read at the
      start and `found` the ids of all rows it found. */
  datatype Phase =
    | Idle
    | Waiting(req: nat, loaded: set<string>, found: set<string>)
    | Accepted(req: nat, loaded: set<string>, found: set<string>)

  datatype Client = Client(env: Env, files: Files, store: Store, sent: SentFile, phase: Phase)

  /** `network` lists every request ever posted; `answered` the ones answered 201. */
  datatype World = World(clients: map<string, Client>, network: seq<Request>, answered: set<nat>, tables: Tables)

  datatype Action =
    | Grow(who: string, later: Files)
    | StopScan(who: string, scanned: seq<ScannedFile>, upto: nat, midFile: bool)
    | Start(who: string, scanned: seq<ScannedFile>, req: Request)
    | Deliver(number: nat, now: int, fault: Fault)
    | Accept(who: string)
    | Finish(who: string, sent: SentFile)
    | Abandon(who: string, torn: bool)
    | LoseSentFile(who: string)

  ghost predicate Init(w: World) {
    && w.network == [] && w.answered == {} && w.tables == EMPTY_TABLES
    && forall i :: i in w.clients ==>
         w.clients[i].store == EMPTY_STORE && w.clients[i].sent == Missing && w.clients[i].phase == Idle
  }

  /** A client about to run over files it can read. */
  ghost predicate CanRun(w: World, who: string, scanned: seq<ScannedFile>) {
    && who in w.clients && w.clients[who].phase == Idle && !w.clients[who].sent.Garbled?
    && AllReadable(PathsOf(scanned), w.clients[who].files)
  }

  ghost function Unsent(c: Client, scanned: seq<ScannedFile>): seq<UsageRow> {
    NewRows(c.files, scanned, SentIds(c.sent))
  }

  ghost function StoreAfterScan(c: Client, scanned: seq<ScannedFile>): Store {
    ScanRun(c.env, c.store, PathsOf(scanned), c.files)
  }

  ghost predicate Enabled(w: World, a: Action) {
    match a
    case Grow(who, later) => who in w.clients && Extends(w.clients[who].files, later)
    case StopScan(who, scanned, upto, midFile) => CanRun(w, who, scanned) && upto <= |scanned|
    case Start(who, scanned, req) =>
      && CanRun(w, who, scanned)
      && var c := w.clients[who];
         Unsent(c, scanned) != [] ==>
           IsBatch(c.env, who, req.hostname, c.files, scanned, StoreAfterScan(c, scanned).votes, SentIds(c.sent), req)
    case Deliver(number, now, fault) => number < |w.network|
    case Accept(who) => who in w.clients && w.clients[who].phase.Waiting? && w.clients[who].phase.req in w.answered
    case Finish(who, sent) =>
      && who in w.clients && w.clients[who].phase.Accepted? && w.clients[who].phase.req < |w.network| && sent.Saved?
      && SentIds(sent) == w.clients[who].phase.loaded + EventIds(w.network[w.clients[who].phase.req].events)
    case Abandon(who, torn) => who in w.clients && (torn ==> w.clients[who].phase.Accepted?)
    case LoseSentFile(who) => who in w.clients
  }

  /** The tables of a run that stops after `upto` files, or inside the next one between the
      commit of its votes and the commit of its offset. */
  ghost function Stopped(c: Client, files: seq<string>, upto: nat, midFile: bool): Store
    requires upto <= |files|
  {
    var sc := ScanFiles(c.env, Begin(c.store), files[..upto], c.files);
    var sc' := if midFile && upto < |files| && files[upto] in c.files
               then CountFile(c.env, sc, files[upto], c.files[files[upto]]) else sc;
    Store(c.store.roots, sc'.votes, sc'.offsets)
  }

  ghost function Next(w: World, a: Action): World
    requires Enabled(w, a)
  {
    match a
    case Grow(who, later) => w.(clients := w.clients[who := w.clients[who].(files := later)])
    case StopScan(who, scanned, upto, midFile) =>
      var c := w.clients[who];
      w.(clients := w.clients[who := c.(store := Stopped(c, PathsOf(scanned), upto, midFile))])
    case Start(who, scanned, req) =>
      var c := w.clients[who];
      var c' := c.(store := StoreAfterScan(c, scanned));
      if Unsent(c, scanned) == [] then w.(clients := w.clients[who := c'])
      else
        w.(clients := w.clients[who := c'.(phase :=
             Waiting(|w.network|, SentIds(c.sent), UsageIds(AllLines(scanned, c.files))))],
           network := w.network + [req])
    case Deliver(number, now, fault) =>
      var (tables, resp) := Ingest(w.tables, w.network[number], now, fault);
      w.(tables := tables, answered := if resp.Created? then w.answered + {number} else w.answered)
    case Accept(who) =>
      var c := w.clients[who];
      w.(clients := w.clients[who := c.(phase := Accepted(c.phase.req, c.phase.loaded, c.phase.found))])
    case Finish(who, sent) => w.(clients := w.clients[who := w.clients[who].(phase := Idle, sent := sent)])
    case Abandon(who, torn) =>
      var c := w.clients[who];
      w.(clients := w.clients[who := c.(phase := Idle, sent := if torn then Garbled else c.sent)])
    case LoseSentFile(who) => w.(clients := w.clients[who := w.clients[who].(sent := Missing)])
  }

  // ---- runs ----

  ghost predicate Possible(w: World, run: seq<Action>)
    decreases |run|
  {
    run != [] ==> Enabled(w, run[0]) && Possible(Next(w, run[0]), run[1..])
  }

  ghost function After(w: World, run: seq<Action>): World
    requires Possible(w, run)
    decreases |run|
  {
    if run == [] then w else After(Next(w, run[0]), run[1..])
  }

  lemma PossibleCons(w: World, a: Action, rest: seq<Action>)
    requires Enabled(w, a) && Possible(Next(w, a), rest)
    ensures Possible(w, [a] + rest) && After(w, [a] + rest) == After(Next(w, a), rest)
  {
    assert ([a] + rest)[1..] == rest;
  }

  // ---- safety ----

  ghost predicate ClientSafe(w: World, c: Client) {
    && Tidy(c.env, c.files, c.store)
    && SentIds(c.sent) <= w.tables.events.Keys
    && (c.phase != Idle ==>
         && c.phase.req < |w.network|
         && c.phase.loaded <= w.tables.events.Keys
         && c.phase.found <= c.phase.loaded + EventIds(w.network[c.phase.req].events))
    && (c.phase.Accepted? ==> c.phase.req in w.answered)
  }

  ghost predicate ServerSafe(w: World) {
    && WellKeyed(w.tables.events) && Registered(w.tables)
    && (forall n :: 0 <= n < |w.network| ==> CollectorMade(w.network[n]))
    && (forall n :: n in w.answered ==> n < |w.network| && EventIds(w.network[n].events) <= w.tables.events.Keys)
  }

  ghost predicate Safe(w: World) { ServerSafe(w) && forall i :: i in w.clients ==> ClientSafe(w, w.clients[i]) }

  lemma InitSafe(w: World)
    requires Init(w)
    ensures Safe(w)
  {}

  lemma StoppedTidy(c: Client, files: seq<string>, upto: nat, midFile: bool)
    requires Tidy(c.env, c.files, c.store) && upto <= |files|
    ensures Tidy(c.env, c.files, Stopped(c, files, upto, midFile))
  {
    assert Mid(Begin(c.store)) == c.store;
    ScanFilesKeeps(c.env, c.files, Begin(c.store), files[..upto]);
    var sc := ScanFiles(c.env, Begin(c.store), files[..upto], c.files);
    if midFile && upto < |files| && files[upto] in c.files {
      CountFileKeepsTidy(c.env, c.files, sc, files[upto]);
    }
  }

  /** Growing the ledger and the network keeps a client safe. */
  lemma ClientFrame(w: World, w': World, c: Client)
    requires ClientSafe(w, c)
    requires w.network <= w'.network && w.answered <= w'.answered && w.tables.events.Keys <= w'.tables.events.Keys
    ensures ClientSafe(w', c)
  {}

  /** Every step keeps the protocol safe and every ledger row as it is. */
  lemma StepSafe(w: World, a: Action)
    requires Safe(w) && Enabled(w, a)
    ensures Safe(Next(w, a))
    ensures RowsKept(w.tables.events, Next(w, a).tables.events)
  {
    match a
    case Start(who, scanned, req) => StartSafe(w, who, scanned, req);
    case Deliver(number, now, fault) => DeliverSafe(w, number, now, fault);
    case _ => LocalStepSafe(w, a);
  }

  /** The steps that change one install only. */
  lemma LocalStepSafe(w: World, a: Action)
    requires Safe(w) && Enabled(w, a) && !a.Start? && !a.Deliver?
    ensures Safe(Next(w, a)) && Next(w, a).tables == w.tables
  {
    var c, c' := w.clients[a.who], Next(w, a).clients[a.who];
    assert ClientSafe(w, c);
    if a.Grow? {
      GrowthKeepsTidy(c.env, c.files, a.later, c.store);
    } else if a.StopScan? {
      StoppedTidy(c, PathsOf(a.scanned), a.upto, a.midFile);
    }
    LocalSafe(w, a.who, c');
  }

  lemma LocalSafe(w: World, who: string, c': Client)
    requires Safe(w) && who in w.clients && ClientSafe(w, c')
    ensures Safe(w.(clients := w.clients[who := c']))
  {
    var w' := w.(clients := w.clients[who := c']);
    forall i | i in w'.clients ensures ClientSafe(w', w'.clients[i]) {
      if i != who { ClientFrame(w, w', w.clients[i]); } else { ClientFrame(w, w', c'); }
    }
  }

  /** A batch about to be posted, and the world once it is. */
  lemma BatchFacts(w: World, who: string, scanned: seq<ScannedFile>, req: Request)
    requires Enabled(w, Start(who, scanned, req)) && Unsent(w.clients[who], scanned) != []
    ensures CollectorMade(req) && req.installId == who
    ensures EventIds(req.events) == UsageIds(AllLines(scanned, w.clients[who].files)) - SentIds(w.clients[who].sent)
  {
    var c := w.clients[who];
    BatchIsCollectorMade(c.env, who, req.hostname, c.files, scanned, StoreAfterScan(c, scanned).votes, SentIds(c.sent), req);
    BatchCarries(c.env, who, req.hostname, c.files, scanned, StoreAfterScan(c, scanned).votes, SentIds(c.sent), req);
  }

  ghost function Posted(w: World, who: string, c': Client, req: Request): World
    requires who in w.clients
  {
    w.(clients := w.clients[who := c'], network := w.network + [req])
  }

  lemma PostedSafe(w: World, who: string, c': Client, req: Request)
    requires Safe(w) && who in w.clients && CollectorMade(req)
    requires ClientSafe(w, c'.(phase := Idle)) && c'.phase.Waiting? && c'.phase.req == |w.network|
    requires c'.phase.loaded <= w.tables.events.Keys && c'.phase.found <= c'.phase.loaded + EventIds(req.events)
    ensures Safe(Posted(w, who, c', req))
  {
    var w' := Posted(w, who, c', req);
    forall i | i in w'.clients ensures ClientSafe(w', w'.clients[i]) {
      if i != who { ClientFrame(w, w', w.clients[i]); } else { ClientFrame(w, w', c'.(phase := Idle)); }
    }
  }

  lemma StartSafe(w: World, who: string, scanned: seq<ScannedFile>, req: Request)
    requires Safe(w) && Enabled(w, Start(who, scanned, req))
    ensures Safe(Next(w, Start(who, scanned, req)))
  {
    var c := w.clients[who];
    assert ClientSafe(w, c);
    ScanRunKeeps(c.env, c.files, c.store, PathsOf(scanned));
    if Unsent(c, scanned) == [] {
      LocalSafe(w, who, c.(store := StoreAfterScan(c, scanned)));
    } else {
      BatchFacts(w, who, scanned, req);
      StartThenWait(w, who, scanned, req);
      var found := UsageIds(AllLines(scanned, c.files));
      PostedSafe(w, who, c.(store := StoreAfterScan(c, scanned), phase := Waiting(|w.network|, SentIds(c.sent), found)), req);
    }
  }

  lemma DeliverSafe(w: World, number: nat, now: int, fault: Fault)
    requires Safe(w) && number < |w.network|
    ensures Safe(Next(w, Deliver(number, now, fault)))
    ensures RowsKept(w.tables.events, Next(w, Deliver(number, now, fault)).tables.events)
  {
    var (tables, resp) := Ingest(w.tables, w.network[number], now, fault);
    ServedFacts(w.tables, w.network[number], now, fault);
    ServedSafe(w, tables, if resp.Created? then w.answered + {number} else w.answered);
  }

  lemma ServedSafe(w: World, tables: Tables, answered: set<nat>)
    requires Safe(w) && WellKeyed(tables.events) && Registered(tables)
    requires w.tables.events.Keys <= tables.events.Keys && w.answered <= answered
    requires forall n :: n in answered && n !in w.answered ==>
               n < |w.network| && EventIds(w.network[n].events) <= tables.events.Keys
    ensures Safe(w.(tables := tables, answered := answered))
  {
    var w' := w.(tables := tables, answered := answered);
    forall i | i in w'.clients ensures ClientSafe(w', w'.clients[i]) { ClientFrame(w, w', w.clients[i]); }
  }

  /** Exactly once, over every interleaving: the state stays safe, so each install's sent
      ids are in the ledger, and no row ever changes or disappears. */
  lemma {:induction false} RunSafe(w: World, run: seq<Action>)
    requires Safe(w) && Possible(w, run)
    ensures Safe(After(w, run))
    ensures RowsKept(w.tables.events, After(w, run).tables.events)
    decreases |run|
  {
    if run != [] {
      StepSafe(w, run[0]);
      RunSafe(Next(w, run[0]), run[1..]);
    }
  }

  lemma ReachableSafe(w: World, run: seq<Action>)
    requires Init(w) && Possible(w, run)
    ensures Safe(After(w, run))
  {
    InitSafe(w);
    RunSafe(w, run);
  }

  // ---- what a run that returns without error has achieved ----

  /** A run that ends by saving: every id it found is in the ledger and recorded as sent. */
  lemma FinishedRunDelivered(w: World, who: string, sent: SentFile)
    requires Safe(w) && Enabled(w, Finish(who, sent))
    ensures w.clients[who].phase.found <= Next(w, Finish(who, sent)).tables.events.Keys
    ensures w.clients[who].phase.found <= SentIds(Next(w, Finish(who, sent)).clients[who].sent)
  {
    var n := w.clients[who].phase.req;
    assert n in w.answered;
  }

  /** A run that ends because nothing is unsent: likewise. */
  lemma EmptyRunDelivered(w: World, who: string, scanned: seq<ScannedFile>)
    requires Safe(w) && CanRun(w, who, scanned) && Unsent(w.clients[who], scanned) == []
    ensures UsageIds(AllLines(scanned, w.clients[who].files)) <= SentIds(w.clients[who].sent) <= w.tables.events.Keys
  {
    var c := w.clients[who];
    RowsAreFirstWins(AllLines(scanned, c.files), {});
    DropSeenIds(FoundRows(scanned, c.files), SentIds(c.sent));
    assert ClientSafe(w, c);
    forall id | id in UsageIds(AllLines(scanned, c.files)) ensures id in SentIds(c.sent) {
      assert id in RowIds(FoundRows(scanned, c.files));
      var r :| r in FoundRows(scanned, c.files) && r.messageId == id;
      assert r !in DropSeen(FoundRows(scanned, c.files), SentIds(c.sent));
    }
  }

  lemma StartThenWait(w: World, who: string, scanned: seq<ScannedFile>, req: Request)
    requires Enabled(w, Start(who, scanned, req)) && Unsent(w.clients[who], scanned) != []
    ensures Next(w, Start(who, scanned, req)) ==
            World(w.clients[who := w.clients[who].(store := StoreAfterScan(w.clients[who], scanned),
                    phase := Waiting(|w.network|, SentIds(w.clients[who].sent), UsageIds(AllLines(scanned, w.clients[who].files))))],
                  w.network + [req], w.answered, w.tables)
  {}

  // ---- every outcome of a collector run is a run of this machine ----

  const NO_REQUEST := Request("", "", [], [])

  /** What follows an answer that was read: the save, as far as it gets. */
  function SaveSteps(who: string, saveFate: SaveFate, sent: SentFile): seq<Action> {
    match saveFate
    case SaveDone => [Finish(who, sent)] + []
    case SaveNotStarted => [Abandon(who, false)] + []
    case SaveTorn => [Abandon(who, true)] + []
  }

  /** What follows a post. */
  function PostSteps(who: string, n: nat, fate: PostFate, succeeds: bool, saveFate: SaveFate,
                     sent: SentFile): seq<Action>
  {
    if fate.RequestLost? || !fate.authenticated then [Abandon(who, false)] + []
    else [Deliver(n, fate.now, fate.fault)] +
         if succeeds then [Accept(who)] + SaveSteps(who, saveFate, sent) else [Abandon(who, false)] + []
  }

  /** The steps of a collector run that found `req` to post, or nothing. */
  function RunSteps(who: string, scanned: seq<ScannedFile>, req: Option<Request>, n: nat, fate: PostFate,
                    succeeds: bool, saveFate: SaveFate, sent: SentFile): seq<Action>
  {
    match req
    case None => [Start(who, scanned, NO_REQUEST)] + []
    case Some(batch) => [Start(who, scanned, batch)] + PostSteps(who, n, fate, succeeds, saveFate, sent)
  }

  /** The same install, its run over. */
  ghost function Rested(w: World, who: string, sent: SentFile): map<string, Client>
    requires who in w.clients
  {
    w.clients[who := w.clients[who].(phase := Idle, sent := sent)]
  }

  ghost predicate EndsIn(w: World, run: seq<Action>, clients: map<string, Client>, tables: Tables) {
    Possible(w, run) && After(w, run).clients == clients && After(w, run).tables == tables
  }

  lemma EndsCons(w: World, a: Action, rest: seq<Action>, clients: map<string, Client>, tables: Tables)
    requires Enabled(w, a) && EndsIn(Next(w, a), rest, clients, tables)
    ensures EndsIn(w, [a] + rest, clients, tables)
  {
    PossibleCons(w, a, rest);
  }

  lemma SaveEnds(w: World, who: string, batch: Request, saveFate: SaveFate, sent: SentFile)
    requires who in w.clients && w.clients[who].phase.Accepted?
    requires w.clients[who].phase.req < |w.network| && w.network[w.clients[who].phase.req] == batch
    requires SentIds(w.clients[who].sent) == w.clients[who].phase.loaded
    requires SentFileAfter(w.clients[who].sent, batch, true, saveFate, sent)
    ensures EndsIn(w, SaveSteps(who, saveFate, sent), Rested(w, who, sent), w.tables)
  {
    match saveFate
    case SaveDone => EndsCons(w, Finish(who, sent), [], Rested(w, who, sent), w.tables);
    case SaveNotStarted => EndsCons(w, Abandon(who, false), [], Rested(w, who, sent), w.tables);
    case SaveTorn => EndsCons(w, Abandon(who, true), [], Rested(w, who, sent), w.tables);
  }

  lemma AcceptEnds(w: World, who: string, batch: Request, saveFate: SaveFate, sent: SentFile)
    requires who in w.clients && w.clients[who].phase.Waiting? && w.clients[who].phase.req in w.answered
    requires w.clients[who].phase.req < |w.network| && w.network[w.clients[who].phase.req] == batch
    requires SentIds(w.clients[who].sent) == w.clients[who].phase.loaded
    requires SentFileAfter(w.clients[who].sent, batch, true, saveFate, sent)
    ensures EndsIn(w, [Accept(who)] + SaveSteps(who, saveFate, sent), Rested(w, who, sent), w.tables)
  {
    var w1 := Next(w, Accept(who));
    SaveEnds(w1, who, batch, saveFate, sent);
    assert Rested(w1, who, sent) == Rested(w, who, sent);
    EndsCons(w, Accept(who), SaveSteps(who, saveFate, sent), Rested(w, who, sent), w.tables);
  }

  lemma GiveUpEnds(w: World, who: string)
    requires who in w.clients
    ensures EndsIn(w, [Abandon(who, false)] + [], Rested(w, who, w.clients[who].sent), w.tables)
  {
    EndsCons(w, Abandon(who, false), [], Rested(w, who, w.clients[who].sent), w.tables);
  }

  lemma PostEnds(w: World, who: string, n: nat, batch: Request, fate: PostFate, saveFate: SaveFate, sent: SentFile)
    requires who in w.clients && w.clients[who].phase.Waiting? && w.clients[who].phase.req == n < |w.network|
    requires w.network[n] == batch && SentIds(w.clients[who].sent) == w.clients[who].phase.loaded
    requires SentFileAfter(w.clients[who].sent, batch, PostSucceeds(w.tables, batch, fate), saveFate, sent)
    ensures EndsIn(w, PostSteps(who, n, fate, PostSucceeds(w.tables, batch, fate), saveFate, sent),
                   Rested(w, who, sent), ServerAfter(w.tables, batch, fate).0)
  {
    if fate.RequestLost? || !fate.authenticated {
      GiveUpEnds(w, who);
    } else {
      var served := Deliver(n, fate.now, fate.fault);
      var w1 := Next(w, served);
      if PostSucceeds(w.tables, batch, fate) {
        AcceptEnds(w1, who, batch, saveFate, sent);
        EndsCons(w, served, [Accept(who)] + SaveSteps(who, saveFate, sent), Rested(w, who, sent), w1.tables);
      } else {
        GiveUpEnds(w1, who);
        EndsCons(w, served, [Abandon(who, false)] + [], Rested(w, who, sent), w1.tables);
      }
    }
  }

  /** Whatever becomes of a collector run (an unreadable file, nothing to send, a lost request
      or answer, a refused or failing request, a save that is cut off, or success), it is a
      possible run of this machine with the same end state. */
  lemma EveryRunIsSteps(w: World, who: string, hostname: string, scanned: seq<ScannedFile>, fate: PostFate,
                        saveFate: SaveFate,
                        st': Store, sent': SentFile, t': Tables, ok: bool, req: Option<Request>)
    requires who in w.clients && w.clients[who].phase == Idle
    requires var c := w.clients[who];
             RunEffect(c.env, who, hostname, c.files, scanned, fate, saveFate, c.store, c.sent, w.tables, st', sent', t', ok, req)
    ensures var steps := if CanRun(w, who, scanned)
                         then RunSteps(who, scanned, req, |w.network|, fate,
                                       req.Some? && PostSucceeds(w.tables, req.value, fate), saveFate, sent')
                         else [];
            EndsIn(w, steps, w.clients[who := w.clients[who].(store := st', sent := sent')], t')
  {
    var c := w.clients[who];
    var ended := w.clients[who := c.(store := st', sent := sent')];
    if !CanRun(w, who, scanned) {
      assert ended == w.clients;
    } else if req.None? {
      EndsCons(w, Start(who, scanned, NO_REQUEST), [], ended, t');
    } else {
      StartThenWait(w, who, scanned, req.value);
      var w1 := Next(w, Start(who, scanned, req.value));
      PostEnds(w1, who, |w.network|, req.value, fate, saveFate, sent');
      RestedInTheEnd(w.clients, who, st', w1.clients[who].phase, sent');
      EndsCons(w, Start(who, scanned, req.value),
               PostSteps(who, |w.network|, fate, PostSucceeds(w.tables, req.value, fate), saveFate, sent'), ended, t');
    }
  }

  lemma RestedInTheEnd(clients: map<string, Client>, who: string, store: Store, phase: Phase, sent: SentFile)
    requires who in clients && clients[who].phase == Idle
    ensures var waiting := clients[who].(store := store, phase := phase);
            clients[who := waiting][who := waiting.(phase := Idle, sent := sent)] ==
            clients[who := clients[who].(store := store, sent := sent)]
  {}

  lemma {:induction false} ClientsStay(w: World, run: seq<Action>)
    requires Possible(w, run)
    ensures After(w, run).clients.Keys == w.clients.Keys
    decreases |run|
  {
    if run != [] {
      ClientsStay(Next(w, run[0]), run[1..]);
    }
  }

  /** The part of a client that a step may touch, step by step. */
  ghost predicate Moved(c: Client, c': Client, a: Action, who: string) {
    c'.env == c.env &&
    if a.Grow? && a.who == who then c'.files == a.later && c'.store == c.store
    else if a.StopScan? && a.who == who then
      c'.files == c.files && a.upto <= |PathsOf(a.scanned)| && c'.store == Stopped(c, PathsOf(a.scanned), a.upto, a.midFile)
    else if a.Start? && a.who == who then c'.files == c.files && c'.store == StoreAfterScan(c, a.scanned)
    else c'.files == c.files && c'.store == c.store
  }

  lemma StepMoves(w: World, a: Action, who: string)
    requires Enabled(w, a) && who in w.clients
    ensures who in Next(w, a).clients && Moved(w.clients[who], Next(w, a).clients[who], a, who)
  {}
}
