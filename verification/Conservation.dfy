/** Tokens and cost are conserved from transcripts to ledger
    (internal/collector/transcript.go, internal/domain/usage/service.go). */
module Conservation {
  import opened Basics
  import opened Transcript
  import opened PathStores
  import opened IncrementalVotes
  import opened Pricing
  import opened Ledger
  import opened Collector
  import opened Delivery

  // ---- conservation of tokens and cost ----

  /** Something said of a usage line: its id, model, usage dict and timestamp. */
  type Fact = (string, string, Tokens, int) -> bool

  ghost predicate Uniform(fact: Fact, files: Files) {
    forall f, l :: f in files && l in files[f] && IsUsage(l) ==>
      fact(UsageId(l), l.message.value.model, l.message.value.usage.value, l.timestamp)
  }

  ghost predicate Honest(fact: Fact, a: Action) { a.Grow? ==> Uniform(fact, a.later) }

  ghost function IdsIn(files: Files): set<string> {
    set f, l | f in files && l in files[f] && IsUsage(l) :: UsageId(l)
  }

  ghost predicate Known(w: World, id: string) { exists i :: i in w.clients && id in IdsIn(w.clients[i].files) }

  ghost function AllIds(w: World): set<string> {
    set i, id | i in w.clients && id in IdsIn(w.clients[i].files) :: id
  }

  ghost predicate RequestTrue(fact: Fact, w: World, req: Request) {
    forall e :: e in req.events ==> fact(e.id, e.model, e.tokens, e.timestamp) && Known(w, e.id)
  }

  ghost predicate RowTrue(fact: Fact, w: World, id: string, e: Event) {
    fact(id, e.model, e.tokens, e.createdAt) && e.cost == CostForUsage(e.model, e.tokens) && Known(w, id)
  }

  ghost predicate FactsTrue(fact: Fact, w: World) {
    && (forall i :: i in w.clients ==> Uniform(fact, w.clients[i].files))
    && (forall n :: 0 <= n < |w.network| ==> RequestTrue(fact, w, w.network[n]))
    && (forall id :: id in w.tables.events ==> RowTrue(fact, w, id, w.tables.events[id]))
  }

  lemma {:induction false} LinesAreInFiles(scanned: seq<ScannedFile>, fs: Files, n: nat, l: Line)
    requires n <= |scanned| && l in LinesUpTo(scanned, fs, n)
    ensures exists f :: f in fs && l in fs[f]
  {
    if n > 0 {
      if l in LinesUpTo(scanned, fs, n - 1) { LinesAreInFiles(scanned, fs, n - 1, l); }
    }
  }

  lemma IdsGrow(files: Files, later: Files)
    requires Extends(files, later)
    ensures IdsIn(files) <= IdsIn(later)
  {
    forall id | id in IdsIn(files) ensures id in IdsIn(later) {
      var f, l :| f in files && l in files[f] && IsUsage(l) && UsageId(l) == id;
      assert f in later && l in later[f];
    }
  }

  lemma StaysKnown(w: World, a: Action, id: string)
    requires Enabled(w, a) && Known(w, id)
    ensures Known(Next(w, a), id)
  {
    var i :| i in w.clients && id in IdsIn(w.clients[i].files);
    if a.Grow? && a.who == i {
      IdsGrow(w.clients[i].files, a.later);
    } else {
      assert Next(w, a).clients[i].files == w.clients[i].files;
    }
    assert i in Next(w, a).clients && id in IdsIn(Next(w, a).clients[i].files);
  }

  lemma StepFacts(fact: Fact, w: World, a: Action)
    requires Enabled(w, a) && FactsTrue(fact, w) && Honest(fact, a)
    ensures FactsTrue(fact, Next(w, a))
  {
    forall id | Known(w, id) ensures Known(Next(w, a), id) { StaysKnown(w, a, id); }
    forall i | i in Next(w, a).clients ensures Uniform(fact, Next(w, a).clients[i].files) { StepMoves(w, a, i); }
    NetworkFacts(fact, w, a);
    LedgerFacts(fact, w, a);
  }

  lemma NetworkFacts(fact: Fact, w: World, a: Action)
    requires Enabled(w, a) && FactsTrue(fact, w) && forall id :: Known(w, id) ==> Known(Next(w, a), id)
    ensures forall n :: 0 <= n < |Next(w, a).network| ==> RequestTrue(fact, Next(w, a), Next(w, a).network[n])
  {
    var w' := Next(w, a);
    assert forall n :: 0 <= n < |w.network| ==> RequestTrue(fact, w', w.network[n]);
    if a.Start? && Unsent(w.clients[a.who], a.scanned) != [] {
      StartThenWait(w, a.who, a.scanned, a.req);
      BatchTrue(fact, w.clients[a.who], a.who, a.scanned, a.req);
      assert w'.clients[a.who].files == w.clients[a.who].files;
    }
  }

  lemma LedgerFacts(fact: Fact, w: World, a: Action)
    requires Enabled(w, a) && FactsTrue(fact, w) && forall id :: Known(w, id) ==> Known(Next(w, a), id)
    ensures forall id :: id in Next(w, a).tables.events ==> RowTrue(fact, Next(w, a), id, Next(w, a).tables.events[id])
  {
    var w' := Next(w, a);
    assert forall id :: id in w.tables.events ==> RowTrue(fact, w', id, w.tables.events[id]);
    if a.Deliver? {
      IngestRows(w.tables, w.network[a.number], a.now, a.fault);
      assert RequestTrue(fact, w', w.network[a.number]);
    }
  }

  lemma BatchTrue(fact: Fact, c: Client, who: string, scanned: seq<ScannedFile>, req: Request)
    requires IsBatch(c.env, who, req.hostname, c.files, scanned, StoreAfterScan(c, scanned).votes, SentIds(c.sent), req)
    requires Uniform(fact, c.files)
    ensures forall e :: e in req.events ==> fact(e.id, e.model, e.tokens, e.timestamp) && e.id in IdsIn(c.files)
  {
    var lines := AllLines(scanned, c.files);
    BatchCarries(c.env, who, req.hostname, c.files, scanned, StoreAfterScan(c, scanned).votes, SentIds(c.sent), req);
    forall e | e in req.events ensures fact(e.id, e.model, e.tokens, e.timestamp) && e.id in IdsIn(c.files) {
      var row :| FromFirstLine(lines, row) && e.id == row.messageId && e.model == row.model && e.tokens == row.tokens
        && e.timestamp == row.timestamp;
      LineFact(fact, c.files, scanned, row);
    }
  }

  lemma LineFact(fact: Fact, files: Files, scanned: seq<ScannedFile>, row: UsageRow)
    requires Uniform(fact, files) && FromFirstLine(AllLines(scanned, files), row)
    ensures fact(row.messageId, row.model, row.tokens, row.timestamp) && row.messageId in IdsIn(files)
  {
    var lines := AllLines(scanned, files);
    var k :| 0 <= k < |lines| && IsUsage(lines[k]) && RowOf(lines[k]) == row;
    LinesAreInFiles(scanned, files, |scanned|, lines[k]);
  }

  lemma {:induction false} RunFacts(fact: Fact, w: World, run: seq<Action>)
    requires Safe(w) && FactsTrue(fact, w) && Possible(w, run) && forall a :: a in run ==> Honest(fact, a)
    ensures FactsTrue(fact, After(w, run))
    decreases |run|
  {
    if run != [] {
      StepSafe(w, run[0]);
      StepFacts(fact, w, run[0]);
      RunFacts(fact, Next(w, run[0]), run[1..]);
    }
  }

  // ---- which installs have caught up ----

  ghost predicate CoversAll(scanned: seq<ScannedFile>,
                            files: Files) { forall f :: f in files ==> f in PathsOf(scanned) }

  /** Behind: the transcripts may hold ids the server has not seen. Covering: a run over all
      transcripts is waiting for its answer or about to save. */
  datatype Progress = Behind | Covering | CaughtUp

  /** An install catches up when a run over all its transcripts saves, or finds nothing unsent;
      it falls behind when a transcript grows. */
  ghost function Track(w: World, p: Progress, a: Action, who: string): Progress
    requires Enabled(w, a) && who in w.clients
  {
    if a.Deliver? || a.who != who then p
    else match a
      case Grow(_, _) => Behind
      case Start(_, scanned, _) =>
        if !CoversAll(scanned, w.clients[who].files) then p
        else if Unsent(w.clients[who], scanned) == [] || p.CaughtUp? then CaughtUp
        else Covering
      case Finish(_, _) => if p.Covering? then CaughtUp else p
      case Abandon(_, _) => if p.Covering? then Behind else p
      case _ => p
  }

  ghost function ProgressAfter(w: World, p: Progress, run: seq<Action>, who: string): Progress
    requires Possible(w, run) && who in w.clients
    decreases |run|
  {
    if run == [] then p
    else if who in Next(w, run[0]).clients then ProgressAfter(Next(w, run[0]), Track(w, p, run[0], who), run[1..], who)
    else Behind
  }

  /** After a run over all its transcripts since its last growth, with the answer read and
      the ids saved, or with nothing unsent. */
  ghost predicate HasCaughtUp(w0: World, run: seq<Action>, who: string)
    requires Possible(w0, run) && who in w0.clients
  {
    ProgressAfter(w0, Behind, run, who) == CaughtUp
  }

  ghost predicate ProgressTrue(w: World, p: Progress, who: string)
    requires who in w.clients
  {
    var c := w.clients[who];
    && (p.CaughtUp? ==> IdsIn(c.files) <= w.tables.events.Keys)
    && (p.Covering? ==> c.phase != Idle && IdsIn(c.files) <= c.phase.found)
  }

  lemma {:induction false} FileIsScanned(scanned: seq<ScannedFile>, fs: Files, k: nat, n: nat, l: Line)
    requires k < n <= |scanned| && scanned[k].path in fs && l in fs[scanned[k].path]
    ensures l in LinesUpTo(scanned, fs, n)
  {
    if k < n - 1 { FileIsScanned(scanned, fs, k, n - 1, l); }
  }

  lemma CoveredIds(scanned: seq<ScannedFile>, fs: Files)
    requires CoversAll(scanned, fs)
    ensures IdsIn(fs) <= UsageIds(AllLines(scanned, fs))
  {
    forall id | id in IdsIn(fs) ensures id in UsageIds(AllLines(scanned, fs)) {
      var f, l :| f in fs && l in fs[f] && IsUsage(l) && UsageId(l) == id;
      assert f in PathsOf(scanned);
      var k :| 0 <= k < |PathsOf(scanned)| && PathsOf(scanned)[k] == f;
      assert scanned[k].path == f;
      FileIsScanned(scanned, fs, k, |scanned|, l);
    }
  }

  lemma StartProgress(w: World, p: Progress, who: string, scanned: seq<ScannedFile>, req: Request)
    requires Safe(w) && Enabled(w, Start(who, scanned, req)) && ProgressTrue(w, p, who)
    ensures ProgressTrue(Next(w, Start(who, scanned, req)), Track(w, p, Start(who, scanned, req), who), who)
  {
    if CoversAll(scanned, w.clients[who].files) {
      CoveredIds(scanned, w.clients[who].files);
      if Unsent(w.clients[who], scanned) == [] {
        EmptyRunDelivered(w, who, scanned);
      } else {
        StartThenWait(w, who, scanned, req);
      }
    }
  }

  lemma FinishProgress(w: World, p: Progress, who: string, sent: SentFile)
    requires Safe(w) && Enabled(w, Finish(who, sent)) && ProgressTrue(w, p, who)
    ensures ProgressTrue(Next(w, Finish(who, sent)), Track(w, p, Finish(who, sent), who), who)
  {
    FinishedRunDelivered(w, who, sent);
  }

  /** A step of another kind changes neither the files nor the phase's findings. */
  lemma OtherProgress(w: World, p: Progress, a: Action, who: string)
    requires Safe(w) && Enabled(w, a) && who in w.clients && ProgressTrue(w, p, who)
    requires a.Deliver? || a.who != who || !(a.Start? || a.Finish?)
    ensures who in Next(w, a).clients && ProgressTrue(Next(w, a), Track(w, p, a, who), who)
  {
    StepSafe(w, a);
    assert w.tables.events.Keys <= Next(w, a).tables.events.Keys;
  }

  lemma StepProgress(w: World, p: Progress, a: Action, who: string)
    requires Safe(w) && Enabled(w, a) && who in w.clients && ProgressTrue(w, p, who)
    ensures who in Next(w, a).clients && ProgressTrue(Next(w, a), Track(w, p, a, who), who)
  {
    if a.Start? && a.who == who {
      StartProgress(w, p, who, a.scanned, a.req);
    } else if a.Finish? && a.who == who {
      FinishProgress(w, p, who, a.sent);
    } else {
      OtherProgress(w, p, a, who);
    }
  }

  lemma {:induction false} RunProgress(w: World, p: Progress, run: seq<Action>, who: string)
    requires Safe(w) && Possible(w, run) && who in w.clients && ProgressTrue(w, p, who)
    ensures who in After(w, run).clients && ProgressTrue(After(w, run), ProgressAfter(w, p, run, who), who)
    decreases |run|
  {
    if run != [] {
      StepSafe(w, run[0]);
      StepProgress(w, p, run[0], who);
      RunProgress(Next(w, run[0]), Track(w, p, run[0], who), run[1..], who);
    }
  }

  lemma ProgressCons(w: World, p: Progress, a: Action, rest: seq<Action>, who: string)
    requires Enabled(w, a) && Possible(Next(w, a), rest) && who in w.clients
    ensures Possible(w, [a] + rest) && who in Next(w, a).clients
    ensures ProgressAfter(w, p, [a] + rest, who) == ProgressAfter(Next(w, a), Track(w, p, a, who), rest, who)
  {
    PossibleCons(w, a, rest);
    StepMoves(w, a, who);
    assert ([a] + rest)[1..] == rest;
  }

  lemma SavedProgress(w: World, p: Progress, who: string, saved: Action, n: nat, now: int, fault: Fault)
    requires who in w.clients && p != Behind && saved.Finish? && saved.who == who
    requires Possible(w, [Deliver(n, now, fault)] + ([Accept(who)] + ([saved] + [])))
    ensures ProgressAfter(w, p, [Deliver(n, now, fault)] + ([Accept(who)] + ([saved] + [])), who) == CaughtUp
  {
    var last, tail := [saved] + [], [Accept(who)] + ([saved] + []);
    assert ([Deliver(n, now, fault)] + tail)[1..] == tail && tail[1..] == last && last[1..] == [];
    var w1 := Next(w, Deliver(n, now, fault));
    var w2 := Next(w1, Accept(who));
    ProgressCons(w, p, Deliver(n, now, fault), tail, who);
    ProgressCons(w1, p, Accept(who), last, who);
    ProgressCons(w2, p, saved, [], who);
  }

  lemma StartedProgress(w: World, p: Progress, start: Action, who: string, saved: Action, n: nat, now: int,
                        fault: Fault)
    requires who in w.clients && start.Start? && start.who == who && CoversAll(start.scanned, w.clients[who].files)
    requires saved.Finish? && saved.who == who
    requires Possible(w, [start] + ([Deliver(n, now, fault)] + ([Accept(who)] + ([saved] + []))))
    ensures ProgressAfter(w, p, [start] + ([Deliver(n, now, fault)] + ([Accept(who)] + ([saved] + []))), who) == CaughtUp
  {
    var rest := [Deliver(n, now, fault)] + ([Accept(who)] + ([saved] + []));
    assert ([start] + rest)[1..] == rest;
    ProgressCons(w, p, start, rest, who);
    SavedProgress(Next(w, start), Track(w, p, start, who), who, saved, n, now, fault);
  }

  /** A collector run over all transcripts that returns without error catches its install up. */
  lemma SuccessfulRunCatchesUp(w: World, p: Progress, who: string, hostname: string, scanned: seq<ScannedFile>,
                               fate: PostFate, saveFate: SaveFate, st': Store, sent': SentFile, t': Tables, req: Option<Request>)
    requires who in w.clients && w.clients[who].phase == Idle && CoversAll(scanned, w.clients[who].files)
    requires var c := w.clients[who];
             RunEffect(c.env, who, hostname, c.files, scanned, fate, saveFate, c.store, c.sent, w.tables, st', sent', t', true, req)
    ensures var steps := RunSteps(who, scanned, req, |w.network|, fate, req.Some?, saveFate, sent');
            Possible(w, steps) && ProgressAfter(w, p, steps, who) == CaughtUp
  {
    EveryRunIsSteps(w, who, hostname, scanned, fate, saveFate, st', sent', t', true, req);
    match req
    case None =>
      assert ([Start(who, scanned, NO_REQUEST)] + [])[1..] == [];
      ProgressCons(w, p, Start(who, scanned, NO_REQUEST), [], who);
    case Some(batch) =>
      assert Possible(w, [Start(who, scanned, batch)] + PostSteps(who, |w.network|, fate, true, saveFate, sent'));
      StartedProgress(w, p, Start(who, scanned, batch), who, Finish(who, sent'), |w.network|, fate.now, fate.fault);
  }

  /** Every id in any install's transcripts is in the ledger. */
  ghost predicate Landed(w: World) {
    forall i :: i in w.clients ==> IdsIn(w.clients[i].files) <= w.tables.events.Keys
  }

  /** Once every install has caught up, every id has landed. */
  lemma CaughtUpMeansLanded(w0: World, run: seq<Action>)
    requires Init(w0) && Possible(w0, run) && forall i :: i in w0.clients ==> HasCaughtUp(w0, run, i)
    ensures Landed(After(w0, run))
  {
    InitSafe(w0);
    ClientsStay(w0, run);
    forall i | i in After(w0, run).clients
      ensures IdsIn(After(w0, run).clients[i].files) <= After(w0, run).tables.events.Keys
    {
      RunProgress(w0, Behind, run, i);
    }
  }

  // ---- what holds of every line holds of every row ----

  /** Whatever is said of every usage line, as transcripts grow, is true of every ledger row. */
  lemma LinesSpeakForRows(fact: Fact, w0: World, run: seq<Action>)
    requires Init(w0) && Possible(w0, run) && (forall a :: a in run ==> Honest(fact, a))
    requires forall i :: i in w0.clients ==> Uniform(fact, w0.clients[i].files)
    ensures FactsTrue(fact, After(w0, run))
  {
    InitSafe(w0);
    RunFacts(fact, w0, run);
  }

  /** The ledger never holds an id no transcript holds, so it holds exactly the transcripts'
      ids if and only if all have landed. */
  lemma LandedExactly(fact: Fact, w: World)
    requires FactsTrue(fact, w)
    ensures w.tables.events.Keys == AllIds(w) <==> Landed(w)
  {
    forall id | id in w.tables.events ensures id in AllIds(w) { assert RowTrue(fact, w, id, w.tables.events[id]); }
    if Landed(w) {
      forall id | id in AllIds(w) ensures id in w.tables.events {
        var i :| i in w.clients && id in IdsIn(w.clients[i].files);
      }
    } else {
      var i :| i in w.clients && !(IdsIn(w.clients[i].files) <= w.tables.events.Keys);
      var id :| id in IdsIn(w.clients[i].files) && id !in w.tables.events;
      assert id in AllIds(w);
    }
  }

  // ---- the totals ----

  /** The model and the usage dict every line with this id carries. */
  type Figures = string -> (string, Tokens)

  ghost function Carrying(fig: Figures): Fact { (id, model, tokens, timestamp) => (model, tokens) == fig(id) }

  /** As above; and the lines of an id lie in the window [start, end) all or none, as `inside` says. */
  ghost function CarryingWithin(fig: Figures, start: int, end: int, inside: string -> bool): Fact {
    (id, model, tokens, timestamp) => (model, tokens) == fig(id) && (start <= timestamp < end <==> inside(id))
  }

  function FigureAmount(m: Measure, fig: Figures, id: string): int {
    match m case TokenCount => TokensFor(fig(id).1) case Cost => CostForUsage(fig(id).0, fig(id).1) case Turns => 1
  }

  ghost function FigureAmounts(m: Measure, fig: Figures): string -> int { id => FigureAmount(m, fig, id) }

  ghost function TranscriptSum(ids: set<string>, m: Measure, fig: Figures): int { SumOver(ids, FigureAmounts(m, fig)) }

  /** Tokens summed counter by counter over the ids, each with its one usage dict. */
  lemma TranscriptTokens(ids: set<string>, fig: Figures)
    ensures TranscriptSum(ids, TokenCount, fig) ==
            SumOver(ids, id => fig(id).1.input) + SumOver(ids, id => fig(id).1.output)
              + SumOver(ids, id => fig(id).1.cacheRead) + SumOver(ids, id => fig(id).1.cacheCreation)
    ensures TranscriptSum(ids, Turns, fig) == |ids|
  {
    var input: string -> int := id => fig(id).1.input;
    var output: string -> int := id => fig(id).1.output;
    var read: string -> int := id => fig(id).1.cacheRead;
    var creation: string -> int := id => fig(id).1.cacheCreation;
    var two: string -> int := id => input(id) + output(id);
    var three: string -> int := id => two(id) + read(id);
    SumAdd(ids, two, input, output);
    SumAdd(ids, three, two, read);
    SumAdd(ids, FigureAmounts(TokenCount, fig), three, creation);
    OnesCount(ids, FigureAmounts(Turns, fig));
  }

  lemma RowCarriesFigure(fig: Figures, w: World, id: string, e: Event, m: Measure)
    requires (e.model, e.tokens) == fig(id) && e.cost == CostForUsage(e.model, e.tokens)
    ensures Amount(m, e) == FigureAmount(m, fig, id)
  {}

  lemma RowsCarryFigures(fig: Figures, w: World, m: Measure, p: Event -> bool, inside: string -> bool)
    requires FactsTrue(Carrying(fig), w)
    requires forall id :: id in w.tables.events ==> p(w.tables.events[id]) == inside(id)
    ensures LedgerSum(w.tables.events, p, m) == TranscriptSum(Within(w.tables.events.Keys, inside), m, fig)
  {
    var rows, met := w.tables.events, Within(w.tables.events.Keys, inside);
    forall id | id in met ensures RowAmount(rows, p, m)(id) == FigureAmounts(m, fig)(id) {
      assert RowTrue(Carrying(fig), w, id, rows[id]);
      RowCarriesFigure(fig, w, id, rows[id], m);
    }
    SumWiden(met, rows.Keys, RowAmount(rows, p, m));
    SumCongruent(met, RowAmount(rows, p, m), FigureAmounts(m, fig));
  }

  /** Conservation: when all lines of an id carry one usage dict and model, then however the
      lines were duplicated, batched and resent, once every install has caught up the ledger
      holds each id once and totals the sum over the distinct ids of that one dict. */
  lemma TotalsConserved(fig: Figures, w0: World, run: seq<Action>, m: Measure)
    requires Init(w0) && Possible(w0, run) && (forall a :: a in run ==> Honest(Carrying(fig), a))
    requires forall i :: i in w0.clients ==> Uniform(Carrying(fig), w0.clients[i].files) && HasCaughtUp(w0, run, i)
    ensures var w := After(w0, run);
            && w.tables.events.Keys == AllIds(w)
            && LedgerSum(w.tables.events, Any(), m) == TranscriptSum(AllIds(w), m, fig)
            && InputSum(w.tables.events, Any()) + OutputSum(w.tables.events, Any())
                 + CacheReadSum(w.tables.events, Any()) + CacheCreationSum(w.tables.events, Any()) ==
               SumOver(AllIds(w), id => fig(id).1.input) + SumOver(AllIds(w), id => fig(id).1.output)
                 + SumOver(AllIds(w), id => fig(id).1.cacheRead) + SumOver(AllIds(w), id => fig(id).1.cacheCreation)
  {
    LinesSpeakForRows(Carrying(fig), w0, run);
    CaughtUpMeansLanded(w0, run);
    AllConserved(fig, After(w0, run), m);
    AllConserved(fig, After(w0, run), TokenCount);
    TokensSpelled(After(w0, run).tables.events, Any());
    TranscriptTokens(AllIds(After(w0, run)), fig);
  }

  lemma AllConserved(fig: Figures, w: World, m: Measure)
    requires FactsTrue(Carrying(fig), w) && Landed(w)
    ensures w.tables.events.Keys == AllIds(w)
    ensures LedgerSum(w.tables.events, Any(), m) == TranscriptSum(AllIds(w), m, fig)
  {
    LandedExactly(Carrying(fig), w);
    var all: string -> bool := _ => true;
    RowsCarryFigures(fig, w, m, Any(), all);
    WithinAll(w.tables.events.Keys, all);
  }

  function Within(ids: set<string>, inside: string -> bool): set<string> { set id | id in ids && inside(id) }

  lemma WithinAll(ids: set<string>, inside: string -> bool)
    requires forall id :: id in ids ==> inside(id)
    ensures Within(ids, inside) == ids
  {}

  lemma WeakerFact(fact: Fact, weaker: Fact, w: World)
    requires FactsTrue(fact, w) && forall id, model, tokens, t :: fact(id, model, tokens, t) ==> weaker(id, model, tokens, t)
    ensures FactsTrue(weaker, w)
  {
    forall i | i in w.clients ensures Uniform(weaker, w.clients[i].files) { assert Uniform(fact, w.clients[i].files); }
    forall n | 0 <= n < |w.network| ensures RequestTrue(weaker, w, w.network[n]) { assert RequestTrue(fact, w, w.network[n]); }
    forall id | id in w.tables.events ensures RowTrue(weaker, w, id, w.tables.events[id]) {
      assert RowTrue(fact, w, id, w.tables.events[id]);
    }
  }

  /** The same for any window: the ledger's rows stamped in it total the sum over the ids whose
      lines lie in it. */
  lemma WindowConserved(fig: Figures, start: int, end: int, inside: string -> bool, p: Event -> bool,
                        w0: World, run: seq<Action>, m: Measure)
    requires Init(w0) && Possible(w0, run) && (forall a :: a in run ==> Honest(CarryingWithin(fig, start, end, inside), a))
    requires forall i :: i in w0.clients ==>
               Uniform(CarryingWithin(fig, start, end, inside), w0.clients[i].files) && HasCaughtUp(w0, run, i)
    requires forall e :: p(e) <==> start <= e.createdAt < end
    ensures var w := After(w0, run);
            LedgerSum(w.tables.events, p, m) == TranscriptSum(Within(AllIds(w), inside), m, fig)
  {
    LinesSpeakForRows(CarryingWithin(fig, start, end, inside), w0, run);
    CaughtUpMeansLanded(w0, run);
    WindowOfWorld(fig, start, end, inside, p, After(w0, run), m);
  }

  lemma WindowOfWorld(fig: Figures, start: int, end: int, inside: string -> bool, p: Event -> bool, w: World,
                      m: Measure)
    requires FactsTrue(CarryingWithin(fig, start, end, inside), w) && Landed(w)
    requires forall e :: p(e) <==> start <= e.createdAt < end
    ensures LedgerSum(w.tables.events, p, m) == TranscriptSum(Within(AllIds(w), inside), m, fig)
  {
    var fact := CarryingWithin(fig, start, end, inside);
    LandedExactly(fact, w);
    WeakerFact(fact, Carrying(fig), w);
    forall id | id in w.tables.events ensures p(w.tables.events[id]) == inside(id) {
      assert RowTrue(fact, w, id, w.tables.events[id]);
    }
    RowsCarryFigures(fig, w, m, p, inside);
  }
}
