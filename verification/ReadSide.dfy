/** What the console reads: filtered windows of the ledger, aggregated, with install ids
    replaced by hostnames (internal/domain/usage/repo.go, internal/domain/usage/service.go). */
module ReadSide {
  import opened Basics
  import opened Ledger
  import opened Windows
  import opened Summary

  // ---- filters ----

  datatype Filter = Filter(machine: string, scanRoot: string)

  datatype Params = Params(start: int, end: int, machine: Option<string>, rootInstall: Option<string>, rootPath: Option<string>)

  function NullableFilterArg(v: string): Option<string> { if v == "" then None else Some(v) }

  /** None when the scan root has no colon: no query is run. */
  function BuildListEventsInWindowParams(start: int, end: int, f: Filter): Option<Params> {
    if f.scanRoot == "" then Some(Params(start, end, NullableFilterArg(f.machine), None, None))
    else match Cut(f.scanRoot)
      case None => None
      case Some((install, path)) => Some(Params(start, end, NullableFilterArg(f.machine), Some(install), Some(path)))
  }

  /** The WHERE clause. */
  predicate Matches(q: Params, e: Event) {
    && q.start <= e.createdAt < q.end
    && (q.machine.None? || e.machine == q.machine.value)
    && (q.rootInstall.None? || e.machine == q.rootInstall.value)
    && (q.rootPath.None? || e.scanRoot == q.rootPath.value)
  }

  /** What a filter asks for, said of an event. */
  predicate Wanted(f: Filter, e: Event) {
    && (f.machine == "" || e.machine == f.machine)
    && (f.scanRoot == "" || Cut(f.scanRoot) == Some((e.machine, e.scanRoot)))
  }

  function Chosen(start: int, end: int,
                  f: Filter): Event -> bool { (e: Event) => start <= e.createdAt < end && Wanted(f, e) }

  /** The query built for a filter selects exactly the wanted events of the window, and a
      filter for which none is built wants nothing. */
  lemma QueryMeansFilter(start: int, end: int, f: Filter, e: Event)
    ensures match BuildListEventsInWindowParams(start, end, f)
            case None => !Wanted(f, e)
            case Some(q) => Matches(q, e) <==> Chosen(start, end, f)(e)
  {}

  /** `listed` holds each row of the table that meets `p`, once, and nothing else. The
      query has no ORDER BY, so that is all there is to say. */
  ghost predicate Selects(table: Rows, listed: seq<Event>, p: Event -> bool) {
    forall e :: multiset(listed)[e] == if e.id in table && table[e.id] == e && p(e) then 1 else 0
  }

  method ListEventsInWindow(repo: Repo, start: int, end: int, f: Filter) returns (listed: seq<Event>)
    requires WellKeyed(repo.events)
    ensures Selects(repo.events, listed, Chosen(start, end, f))
  {
    listed := [];
    var built := BuildListEventsInWindowParams(start, end, f);
    forall e ensures built.None? ==> !Chosen(start, end, f)(e) { QueryMeansFilter(start, end, f, e); }
    if built.None? {
      return;
    }
    var rest := repo.events.Keys;
    while rest != {}
      invariant rest <= repo.events.Keys
      invariant forall e :: multiset(listed)[e] ==
                  if e.id in repo.events && e.id !in rest && repo.events[e.id] == e && Matches(built.value, e) then 1 else 0
      decreases rest
    {
      var id :| id in rest;
      rest := rest - {id};
      if Matches(built.value, repo.events[id]) {
        listed := listed + [repo.events[id]];
      }
    }
    forall e ensures Matches(built.value, e) <==> Chosen(start, end, f)(e) { QueryMeansFilter(start, end, f, e); }
  }

  // ---- sums over the ledger ----

  function Both(p: Event -> bool, q: Event -> bool): Event -> bool { e => p(e) && q(e) }

  lemma LedgerSumCongruent(table: Rows, p: Event -> bool, q: Event -> bool, m: Measure)
    requires forall id :: id in table ==> p(table[id]) == q(table[id])
    ensures LedgerSum(table, p, m) == LedgerSum(table, q, m)
  {
    SumCongruent(table.Keys, RowAmount(table, p, m), RowAmount(table, q, m));
  }

  lemma LedgerSumSplits(table: Rows, whole: Event -> bool, p: Event -> bool, q: Event -> bool, m: Measure)
    requires forall id :: id in table ==>
               (whole(table[id]) <==> p(table[id]) || q(table[id])) && !(p(table[id]) && q(table[id]))
    ensures LedgerSum(table, whole, m) == LedgerSum(table, p, m) + LedgerSum(table, q, m)
  {
    SumAdd(table.Keys, RowAmount(table, whole, m), RowAmount(table, p, m), RowAmount(table, q, m));
  }

  lemma LedgerSumNone(table: Rows, p: Event -> bool, m: Measure)
    requires forall id :: id in table ==> !p(table[id])
    ensures LedgerSum(table, p, m) == 0
  {
    SumWiden({}, table.Keys, RowAmount(table, p, m));
  }

  lemma FirstListed(table: Rows, listed: seq<Event>, p: Event -> bool)
    requires WellKeyed(table) && Selects(table, listed, p) && listed != []
    ensures var e := listed[0]; e.id in table && table[e.id] == e && p(e) && Selects(table - {e.id}, listed[1..], p)
  {
    var e := listed[0];
    assert listed == [e] + listed[1..];
    assert multiset(listed)[e] >= 1;
    forall x ensures multiset(listed[1..])[x] ==
                     if x.id in table - {e.id} && table[x.id] == x && p(x) then 1 else 0
    {
      assert multiset(listed)[x] == multiset{e}[x] + multiset(listed[1..])[x];
    }
  }

  lemma NoneListed(table: Rows, p: Event -> bool, id: string)
    requires WellKeyed(table) && Selects(table, [], p) && id in table
    ensures !p(table[id])
  {
    assert multiset([])[table[id]] == 0;
  }

  /** Summing over any listing of the rows that meet `p` is summing over the ledger. */
  lemma {:induction false} ListedTotal(table: Rows, listed: seq<Event>, p: Event -> bool, q: Event -> bool, m: Measure)
    requires WellKeyed(table) && Selects(table, listed, p)
    ensures Total(listed, q, m) == LedgerSum(table, Both(p, q), m)
    decreases |listed|
  {
    if listed == [] {
      forall id | id in table ensures !p(table[id]) { NoneListed(table, p, id); }
      LedgerSumNone(table, Both(p, q), m);
    } else {
      var e := listed[0];
      FirstListed(table, listed, p);
      var rest := table - {e.id};
      ListedTotal(rest, listed[1..], p, q, m);
      SumRemove(table.Keys, RowAmount(table, Both(p, q), m), e.id);
      assert rest.Keys == table.Keys - {e.id};
      SumCongruent(rest.Keys, RowAmount(table, Both(p, q), m), RowAmount(rest, Both(p, q), m));
    }
  }

  lemma ListedMember(table: Rows, listed: seq<Event>, p: Event -> bool, e: Event)
    requires Selects(table, listed, p)
    ensures e in listed <==> e.id in table && table[e.id] == e && p(e)
  {
    assert e in listed <==> e in multiset(listed);
  }

  // ---- a summary in terms of the ledger ----

  ghost predicate HasRow(table: Rows, p: Event -> bool, g: GroupBy, key: string) {
    exists id :: id in table && p(table[id]) && HasKey(g, key)(table[id])
  }

  ghost predicate IsLedgerRow(table: Rows, p: Event -> bool, g: GroupBy, row: BreakdownRow) {
    && row.rawKey == "" && HasRow(table, p, g, row.key)
    && forall m: Measure :: Figure(row.figures, m) == LedgerSum(table, Both(p, HasKey(g, row.key)), m)
  }

  function LedgerMachines(table: Rows, p: Event -> bool): set<string> {
    set id | id in table && p(table[id]) && table[id].machine != "" :: table[id].machine
  }

  /** The answer before hostnames are put in, said of the ledger. */
  ghost predicate RawAnswer(table: Rows, p: Event -> bool, g: GroupBy, raw: SummaryResult) {
    && (forall m: Measure :: Figure(raw.totals, m) == LedgerSum(table, p, m))
    && Ordered(raw.breakdown)
    && (forall row :: row in raw.breakdown <==> IsLedgerRow(table, p, g, row))
    && raw.reportingInstalls == |LedgerMachines(table, p)|
  }

  lemma TotalsFromLedger(table: Rows, listed: seq<Event>, p: Event -> bool, m: Measure)
    requires WellKeyed(table) && Selects(table, listed, p)
    ensures Total(listed, Any(), m) == LedgerSum(table, p, m)
  {
    ListedTotal(table, listed, p, Any(), m);
    LedgerSumCongruent(table, Both(p, Any()), p, m);
  }

  lemma KeysFromLedger(table: Rows, listed: seq<Event>, p: Event -> bool, g: GroupBy, key: string)
    requires WellKeyed(table) && Selects(table, listed, p)
    ensures key in KeysOf(listed, g) <==> HasRow(table, p, g, key)
  {
    if key in KeysOf(listed, g) {
      var e :| e in listed && Counted(g, e) && KeyFor(g, e) == key;
      ListedMember(table, listed, p, e);
      assert HasKey(g, key)(table[e.id]);
    }
    if HasRow(table, p, g, key) {
      var id :| id in table && p(table[id]) && HasKey(g, key)(table[id]);
      ListedMember(table, listed, p, table[id]);
    }
  }

  /** Three figures make a total. */
  lemma FiguresSettle(a: Totals, b: Totals)
    ensures a == b <==> forall m: Measure :: Figure(a, m) == Figure(b, m)
  {
    if forall m: Measure :: Figure(a, m) == Figure(b, m) {
      assert Figure(a, TokenCount) == Figure(b, TokenCount);
      assert Figure(a, Cost) == Figure(b, Cost);
      assert Figure(a, Turns) == Figure(b, Turns);
    }
  }

  lemma FiguresFromLedger(table: Rows, listed: seq<Event>, p: Event -> bool, q: Event -> bool, figures: Totals)
    requires WellKeyed(table) && Selects(table, listed, p)
    ensures figures == Sums(listed, q) <==> forall m: Measure :: Figure(figures, m) == LedgerSum(table, Both(p, q), m)
  {
    forall m: Measure ensures Figure(Sums(listed, q), m) == LedgerSum(table, Both(p, q), m) { ListedTotal(table, listed, p, q, m); }
    FiguresSettle(figures, Sums(listed, q));
  }

  lemma RowFromLedger(table: Rows, listed: seq<Event>, p: Event -> bool, g: GroupBy, row: BreakdownRow)
    requires WellKeyed(table) && Selects(table, listed, p)
    ensures row.key in KeysOf(listed, g) && row == RowFor(listed, g, row.key) <==> IsLedgerRow(table, p, g, row)
  {
    KeysFromLedger(table, listed, p, g, row.key);
    FiguresFromLedger(table, listed, p, HasKey(g, row.key), row.figures);
  }

  lemma MachinesFromLedger(table: Rows, listed: seq<Event>, p: Event -> bool)
    requires WellKeyed(table) && Selects(table, listed, p)
    ensures MachinesOf(listed) == LedgerMachines(table, p)
  {
    forall e | e in listed ensures e.id in table && table[e.id] == e && p(e) { ListedMember(table, listed, p, e); }
    forall id | id in table && p(table[id]) ensures table[id] in listed { ListedMember(table, listed, p, table[id]); }
  }

  lemma AnswerFromListing(table: Rows, listed: seq<Event>, p: Event -> bool, g: GroupBy, raw: SummaryResult)
    requires WellKeyed(table) && Selects(table, listed, p) && IsAggregate(listed, g, raw)
    ensures RawAnswer(table, p, g, raw)
  {
    forall m: Measure ensures Figure(raw.totals, m) == LedgerSum(table, p, m) { TotalsFromLedger(table, listed, p, m); }
    forall row ensures row in raw.breakdown <==> IsLedgerRow(table, p, g, row) { RowFromLedger(table, listed, p, g, row); }
    MachinesFromLedger(table, listed, p);
  }

  // ---- hostnames ----

  function Hostnames(machines: map<string, MachineRow>): map<string, string> {
    map id | id in machines :: machines[id].hostname
  }

  predicate HasHostname(hosts: map<string, string>, install: string) { install in hosts && hosts[install] != "" }

  function Renamed(g: GroupBy, hosts: map<string, string>, row: BreakdownRow): BreakdownRow {
    if g.ByMachine? then
      if HasHostname(hosts, row.key) then row.(key := hosts[row.key], rawKey := row.key) else row
    else match Cut(row.key)
      case None => row
      case Some((install, rest)) =>
        if HasHostname(hosts, install) then row.(key := hosts[install] + ":" + rest, rawKey := row.key) else row
  }

  function RenamedAll(g: GroupBy, hosts: map<string, string>, rows: seq<BreakdownRow>): seq<BreakdownRow> {
    seq(|rows|, i requires 0 <= i < |rows| => Renamed(g, hosts, rows[i]))
  }

  method SubstituteMachineHostnames(hosts: map<string, string>, breakdown: array<BreakdownRow>)
    modifies breakdown
    ensures breakdown[..] == RenamedAll(ByMachine, hosts, old(breakdown[..]))
  {
    for i := 0 to breakdown.Length
      invariant breakdown[..i] == RenamedAll(ByMachine, hosts, old(breakdown[..]))[..i]
      invariant forall k :: i <= k < breakdown.Length ==> breakdown[k] == old(breakdown[k])
    {
      var installId := breakdown[i].key;
      if installId in hosts && hosts[installId] != "" {
        breakdown[i] := breakdown[i].(key := hosts[installId], rawKey := installId);
      }
    }
  }

  /** Both passes over composite keys, for paths and for actors, do this. */
  method SubstituteMachineHostnamesInKeys(hosts: map<string, string>, breakdown: array<BreakdownRow>, g: GroupBy)
    requires !g.ByMachine?
    modifies breakdown
    ensures breakdown[..] == RenamedAll(g, hosts, old(breakdown[..]))
  {
    for i := 0 to breakdown.Length
      invariant breakdown[..i] == RenamedAll(g, hosts, old(breakdown[..]))[..i]
      invariant forall k :: i <= k < breakdown.Length ==> breakdown[k] == old(breakdown[k])
    {
      var rawKey := breakdown[i].key;
      var cut := Cut(rawKey);
      if cut.None? { continue; }
      var (installId, rest) := cut.value;
      if installId in hosts && hosts[installId] != "" {
        breakdown[i] := breakdown[i].(key := hosts[installId] + ":" + rest, rawKey := rawKey);
      }
    }
  }

  /** The answer the console gets. */
  ghost predicate Answer(t: Tables, p: Event -> bool, g: GroupBy, r: SummaryResult) {
    exists raw :: RawAnswer(t.events, p, g, raw)
               && r == raw.(breakdown := RenamedAll(g, Hostnames(t.machines), raw.breakdown))
  }

  /** Service.Summary. None is the error for a window no one knows. */
  method Summarize(repo: Repo, w: Window, g: GroupBy, f: Filter, now: int) returns (r: Option<SummaryResult>)
    requires WellKeyed(repo.events)
    ensures r.None? <==> w.Unknown?
    ensures r.Some? ==> Answer(repo.State(), Chosen(StartOf(w, now), now, f), g, r.value)
  {
    var bounds := WindowBounds(w, now);
    if bounds.None? {
      return None;
    }
    var (start, end) := bounds.value;
    var listed := ListEventsInWindow(repo, start, end, f);
    var raw := Aggregate(listed, g);
    AnswerFromListing(repo.events, listed, Chosen(start, end, f), g, raw);
    var hosts := Hostnames(repo.machines);
    var n := |raw.breakdown|;
    var rows := new BreakdownRow[n](i requires 0 <= i < n => raw.breakdown[i]);
    assert rows[..] == raw.breakdown;
    match g {
      case ByMachine => SubstituteMachineHostnames(hosts, rows);
      case ByPath => SubstituteMachineHostnamesInKeys(hosts, rows, ByPath);
      case ByActor => SubstituteMachineHostnamesInKeys(hosts, rows, ByActor);
    }
    return Some(raw.(breakdown := rows[..]));
  }

  /** A row of the fixed table: the window and its totals. */
  ghost predicate IsWindowRow(table: Rows, w: Window, f: Filter, now: int, row: (Window, Totals))
    requires !w.Unknown?
  {
    row.0 == w && forall m: Measure :: Figure(row.1, m) == LedgerSum(table, Chosen(StartOf(w, now), now, f), m)
  }

  /** The fixed table: one row a window, each the window's totals. */
  method WindowTable(repo: Repo, f: Filter, now: int) returns (rows: seq<(Window, Totals)>)
    requires WellKeyed(repo.events)
    ensures |rows| == |WINDOWS| && forall k :: 0 <= k < |WINDOWS| ==> IsWindowRow(repo.events, WINDOWS[k], f, now, rows[k])
  {
    rows := [];
    for i := 0 to |WINDOWS|
      invariant |rows| == i
      invariant forall k :: 0 <= k < i ==> IsWindowRow(repo.events, WINDOWS[k], f, now, rows[k])
    {
      var row := WindowTotals(repo, WINDOWS[i], f, now);
      rows := rows + [row];
    }
  }

  method WindowTotals(repo: Repo, w: Window, f: Filter, now: int) returns (row: (Window, Totals))
    requires WellKeyed(repo.events) && !w.Unknown?
    ensures IsWindowRow(repo.events, w, f, now, row)
  {
    var (start, end) := WindowBounds(w, now).value;
    var listed := ListEventsInWindow(repo, start, end, f);
    var raw := Aggregate(listed, ByActor);
    AnswerFromListing(repo.events, listed, Chosen(start, end, f), ByActor, raw);
    row := (w, raw.totals);
  }

  /** Half-open windows that abut add up: an event at the border is in the later one only. */
  lemma WindowsAbut(table: Rows, a: int, b: int, c: int, f: Filter, m: Measure)
    requires a <= b <= c
    ensures LedgerSum(table, Chosen(a, b, f), m) + LedgerSum(table, Chosen(b, c, f), m) == LedgerSum(table, Chosen(a, c, f), m)
  {
    LedgerSumSplits(table, Chosen(a, c, f), Chosen(a, b, f), Chosen(b, c, f), m);
  }

  /** A displayed row holds the figures of the events shown under `key`, with the hostname put in. */
  ghost predicate SpelledRow(t: Tables, p: Event -> bool, g: GroupBy, row: BreakdownRow, key: string) {
    && Spelled(t.events, Both(p, Under(g, key)), row.figures.tokens, row.figures.cost, row.figures.turns)
    && row == Renamed(g, Hostnames(t.machines), BreakdownRow(key, "", row.figures))
  }

  /** The figures of an answer, counter by counter. */
  lemma AnswerSpelled(t: Tables, p: Event -> bool, g: GroupBy, r: SummaryResult)
    requires Answer(t, p, g, r)
    ensures Spelled(t.events, p, r.totals.tokens, r.totals.cost, r.totals.turns)
  {
    var raw :| RawAnswer(t.events, p, g, raw) && r == raw.(breakdown := RenamedAll(g, Hostnames(t.machines), raw.breakdown));
    SpelledFigures(t.events, p, raw.totals);
  }

  /** The figures of each of its rows, counter by counter. */
  lemma AnswerRowSpelled(t: Tables, p: Event -> bool, g: GroupBy, r: SummaryResult, i: nat) returns (key: string)
    requires Answer(t, p, g, r) && i < |r.breakdown|
    ensures SpelledRow(t, p, g, r.breakdown[i], key)
  {
    var raw :| RawAnswer(t.events, p, g, raw) && r == raw.(breakdown := RenamedAll(g, Hostnames(t.machines), raw.breakdown));
    var row := raw.breakdown[i];
    assert row in raw.breakdown;
    RenamedSpelled(t, p, g, row);
    assert r.breakdown[i] == Renamed(g, Hostnames(t.machines), row);
    key := row.key;
  }

  lemma RenamedSpelled(t: Tables, p: Event -> bool, g: GroupBy, row: BreakdownRow)
    requires IsLedgerRow(t.events, p, g, row)
    ensures SpelledRow(t, p, g, Renamed(g, Hostnames(t.machines), row), row.key)
  {
    RowSpelled(t.events, p, g, row);
    var shown := Renamed(g, Hostnames(t.machines), row);
    assert shown.figures == row.figures && row == BreakdownRow(row.key, "", row.figures);
  }

  lemma SpelledFigures(table: Rows, p: Event -> bool, t: Totals)
    requires forall m: Measure :: Figure(t, m) == LedgerSum(table, p, m)
    ensures Spelled(table, p, t.tokens, t.cost, t.turns)
  {
    FiguresSpelled(table, p);
    assert Figure(t, TokenCount) == t.tokens && Figure(t, Cost) == t.cost && Figure(t, Turns) == t.turns;
  }

  lemma RowSpelled(table: Rows, p: Event -> bool, g: GroupBy, row: BreakdownRow)
    requires IsLedgerRow(table, p, g, row)
    ensures Spelled(table, Both(p, Under(g, row.key)), row.figures.tokens, row.figures.cost, row.figures.turns)
  {
    forall m: Measure ensures Figure(row.figures, m) == LedgerSum(table, Both(p, Under(g, row.key)), m) {
      LedgerSumCongruent(table, Both(p, HasKey(g, row.key)), Both(p, Under(g, row.key)), m);
    }
    SpelledFigures(table, Both(p, Under(g, row.key)), row.figures);
  }

  lemma WindowRowSpelled(table: Rows, w: Window, f: Filter, now: int, row: (Window, Totals))
    requires !w.Unknown? && IsWindowRow(table, w, f, now, row)
    ensures Spelled(table, Chosen(StartOf(w, now), now, f), row.1.tokens, row.1.cost, row.1.turns)
  {
    SpelledFigures(table, Chosen(StartOf(w, now), now, f), row.1);
  }

  datatype ScanRootOption = ScanRootOption(installId: string, hostname: string, path: string, name: string, sourceType: string)

  function OptionFor(t: Tables, root: (string, string)): ScanRootOption
    requires root in t.scanRoots
  {
    var hosts := Hostnames(t.machines);
    ScanRootOption(root.0, if HasHostname(hosts, root.0) then hosts[root.0] else root.0, root.1,
                   t.scanRoots[root].name, t.scanRoots[root].sourceType)
  }

  /** Each registered scan root once, in any order, never with a blank hostname unless the
      install id itself is blank. */
  method ScanRoots(repo: Repo) returns (out: seq<ScanRootOption>)
    ensures forall o :: multiset(out)[o] ==
              if (o.installId, o.path) in repo.scanRoots && o == OptionFor(repo.State(), (o.installId, o.path)) then 1 else 0
    ensures forall o :: o in out ==> (o.hostname == "" ==> o.installId == "")
    ensures forall o :: o in out ==>
              var machines, root := repo.machines, repo.scanRoots[(o.installId, o.path)];
              && o.name == root.name && o.sourceType == root.sourceType
              && o.hostname == if o.installId in machines && machines[o.installId].hostname != ""
                               then machines[o.installId].hostname else o.installId
  {
    out := [];
    var rest := repo.scanRoots.Keys;
    while rest != {}
      invariant rest <= repo.scanRoots.Keys
      invariant forall o :: multiset(out)[o] ==
                  if (o.installId, o.path) in repo.scanRoots && (o.installId, o.path) !in rest
                     && o == OptionFor(repo.State(), (o.installId, o.path)) then 1 else 0
      decreases rest
    {
      var root :| root in rest;
      rest := rest - {root};
      out := out + [OptionFor(Tables(repo.events, repo.machines, repo.scanRoots), root)];
    }
    forall o | o in out ensures (o.installId, o.path) in repo.scanRoots && o == OptionFor(repo.State(), (o.installId, o.path)) {
      assert o in multiset(out);
    }
  }
}
