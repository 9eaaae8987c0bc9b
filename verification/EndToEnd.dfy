/** From transcripts to console: what the read side's laws ask of the ledger holds after
    every run of the delivery protocol. */
module EndToEnd {
  import opened Basics
  import opened Ledger
  import opened Summary
  import opened ReadSide
  import opened Drilldown
  import opened Conservation
  import opened Delivery

  /** Labels name known installs, and the ledger prices every row itself. */
  ghost predicate Labelled(w: World) {
    && (forall root :: root in w.tables.scanRoots ==> root.0 in w.clients)
    && (forall n :: 0 <= n < |w.network| ==> w.network[n].installId in w.clients)
    && PricedRows(w.tables.events)
  }

  lemma IngestInstalls(t: Tables, req: Request, now: int, fault: Fault)
    ensures forall root :: root in Ingest(t, req, now, fault).0.scanRoots ==> root in t.scanRoots || root.0 == req.installId
  {
    var k := if fault.RootFault? && fault.at < |req.scanRoots| then fault.at else |req.scanRoots|;
    UpsertRootsKeys(t.scanRoots, req.installId, req.scanRoots[..k], now);
  }

  lemma IngestPrices(t: Tables, req: Request, now: int, fault: Fault)
    requires PricedRows(t.events)
    ensures PricedRows(Ingest(t, req, now, fault).0.events)
  {
    IngestRows(t, req, now, fault);
  }

  lemma StepLabelled(w: World, a: Action)
    requires Labelled(w) && Enabled(w, a)
    ensures Labelled(Next(w, a))
  {
    if a.Deliver? {
      IngestInstalls(w.tables, w.network[a.number], a.now, a.fault);
      IngestPrices(w.tables, w.network[a.number], a.now, a.fault);
    } else if a.Start? && Unsent(w.clients[a.who], a.scanned) != [] {
      StartThenWait(w, a.who, a.scanned, a.req);
    }
  }

  lemma {:induction false} RunLabelled(w: World, run: seq<Action>)
    requires Labelled(w) && Possible(w, run)
    ensures Labelled(After(w, run))
    decreases |run|
  {
    if run != [] {
      StepLabelled(w, run[0]);
      RunLabelled(Next(w, run[0]), run[1..]);
    }
  }

  /** After any run whatever, faults, losses and resends included, while install ids hold
      no colon the registered scan roots partition what the console shows. */
  lemma UsagePartitions(w0: World, run: seq<Action>, start: int, end: int, machine: string, m: Measure)
    requires Init(w0) && Possible(w0, run) && forall i :: i in w0.clients ==> ColonFree(i)
    ensures var t := After(w0, run).tables;
            SumOver(t.scanRoots.Keys, RootSum(t.events, start, end, machine, m)) ==
            LedgerSum(t.events, Chosen(start, end, Filter(machine, "")), m)
  {
    ReachableSafe(w0, run);
    RunLabelled(w0, run);
    ClientsStay(w0, run);
    ColonFreeClaims(After(w0, run).tables, Chosen(start, end, Filter(machine, "")));
    ScanRootsPartition(After(w0, run).tables, start, end, machine, m);
  }

  lemma AnswerTotals(t: Tables, p: Event -> bool, g: GroupBy, r: SummaryResult, m: Measure)
    requires Answer(t, p, g, r)
    ensures Figure(r.totals, m) == LedgerSum(t.events, p, m)
  {}

  /** Once every install has caught up, the console's unfiltered total for any window is the
      sum over the distinct message ids whose transcript lines lie in the window. */
  lemma ConsoleShowsTranscripts(fig: Figures, start: int, end: int, inside: string -> bool, w0: World, run: seq<Action>,
                                m: Measure, g: GroupBy, r: SummaryResult)
    requires Init(w0) && Possible(w0, run) && (forall a :: a in run ==> Honest(CarryingWithin(fig, start, end, inside), a))
    requires forall i :: i in w0.clients ==>
               Uniform(CarryingWithin(fig, start, end, inside), w0.clients[i].files) && HasCaughtUp(w0, run, i)
    requires Answer(After(w0, run).tables, Chosen(start, end, Filter("", "")), g, r)
    ensures Figure(r.totals, m) == TranscriptSum(Within(AllIds(After(w0, run)), inside), m, fig)
  {
    var p := Chosen(start, end, Filter("", ""));
    WindowConserved(fig, start, end, inside, p, w0, run, m);
    AnswerTotals(After(w0, run).tables, p, g, r, m);
  }
}
