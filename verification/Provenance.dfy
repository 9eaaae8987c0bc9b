/** Every ledger row goes back to a run of a collector that read it off the transcripts
    (internal/collector/collector.go, internal/domain/usage/service.go). */
module Provenance {
  import opened Ledger
  import opened Collector
  import opened Delivery

  /** A run that starts here sends the event, and the event is true to the transcripts, the
      votes and the files of that moment. */
  ghost predicate SentTruly(w: World, a: Action, e: IngestEvent)
    requires Enabled(w, a)
  {
    && a.Start? && e in a.req.events
    && var c := w.clients[a.who];
       TrueEvent(c.env, a.who, c.files, a.scanned, StoreAfterScan(c, a.scanned).votes, e)
  }

  ghost predicate SentInRun(w: World, run: seq<Action>, e: IngestEvent)
    requires Possible(w, run)
    decreases |run|
  {
    run != [] && (SentTruly(w, run[0], e) || SentInRun(Next(w, run[0]), run[1..], e))
  }

  ghost predicate OnItsWay(w: World, e: IngestEvent) { exists n :: 0 <= n < |w.network| && e in w.network[n].events }

  lemma StepSends(w: World, a: Action, e: IngestEvent)
    requires Enabled(w, a) && OnItsWay(Next(w, a), e)
    ensures OnItsWay(w, e) || SentTruly(w, a, e)
  {
    var n :| 0 <= n < |Next(w, a).network| && e in Next(w, a).network[n].events;
    if n < |w.network| {
      assert Next(w, a).network[n] == w.network[n];
    } else {
      assert a.Start? && Unsent(w.clients[a.who], a.scanned) != [];
      StartThenWait(w, a.who, a.scanned, a.req);
      var c := w.clients[a.who];
      BatchIsTrue(c.env, a.who, a.req.hostname, c.files, a.scanned, StoreAfterScan(c, a.scanned).votes, SentIds(c.sent), a.req, e);
    }
  }

  lemma StepStores(w: World, a: Action, id: string)
    requires Enabled(w, a) && id in Next(w, a).tables.events && id !in w.tables.events
    ensures exists e :: OnItsWay(w, e) && StoredAs(Next(w, a).tables.events[id], e)
  {
    IngestRows(w.tables, w.network[a.number], a.now, a.fault);
    var e :| e in w.network[a.number].events && StoredAs(Next(w, a).tables.events[id], e);
    assert OnItsWay(w, e);
  }

  lemma {:induction false} RunStores(w: World, run: seq<Action>, id: string)
    requires Safe(w) && Possible(w, run) && id in After(w, run).tables.events && id !in w.tables.events
    ensures exists e :: (OnItsWay(w, e) || SentInRun(w, run, e)) && StoredAs(After(w, run).tables.events[id], e)
    decreases |run|
  {
    var w1 := Next(w, run[0]);
    StepSafe(w, run[0]);
    if id in w1.tables.events {
      StepStores(w, run[0], id);
      RunSafe(w1, run[1..]);
    } else {
      RunStores(w1, run[1..], id);
      var e :| (OnItsWay(w1, e) || SentInRun(w1, run[1..], e)) && StoredAs(After(w, run).tables.events[id], e);
      if OnItsWay(w1, e) { StepSends(w, run[0], e); }
    }
  }

  /** Over every run, each ledger row keeps every field of an event some collector run sent,
      and that event was true: session, model, tokens and timestamp of the first line with its
      id, the actor and path of its session, the machine that ran and the scan root of the
      first file that carries the id. */
  lemma RowsAreTrue(w0: World, run: seq<Action>, id: string)
    requires Init(w0) && Possible(w0, run) && id in After(w0, run).tables.events
    ensures exists e :: SentInRun(w0, run, e) && StoredAs(After(w0, run).tables.events[id], e)
  {
    InitSafe(w0);
    RunStores(w0, run, id);
    var e :| (OnItsWay(w0, e) || SentInRun(w0, run, e)) && StoredAs(After(w0, run).tables.events[id], e);
    assert !OnItsWay(w0, e);
  }
}
