/** Laws of the console's read side that span filters, aggregation, hostnames and windows. */
module Drilldown {
  import opened Basics
  import opened Transcript
  import opened Pricing
  import opened Ledger
  import opened Windows
  import opened Summary
  import opened ReadSide

  // ---- one answer ----

  lemma RawAnswerUnique(table: Rows, p: Event -> bool, g: GroupBy, a: SummaryResult, b: SummaryResult)
    requires RawAnswer(table, p, g, a) && RawAnswer(table, p, g, b)
    ensures a == b
  {
    FiguresSettle(a.totals, b.totals);
    OrderedUnique(a.breakdown, b.breakdown);
  }

  /** However the database orders the rows it returns, the console sees one answer. */
  lemma AnswerUnique(t: Tables, p: Event -> bool, g: GroupBy, a: SummaryResult, b: SummaryResult)
    requires Answer(t, p, g, a) && Answer(t, p, g, b)
    ensures a == b
  {
    var rawA :| RawAnswer(t.events, p, g, rawA) && a == rawA.(breakdown := RenamedAll(g, Hostnames(t.machines), rawA.breakdown));
    var rawB :| RawAnswer(t.events, p, g, rawB) && b == rawB.(breakdown := RenamedAll(g, Hostnames(t.machines), rawB.breakdown));
    RawAnswerUnique(t.events, p, g, rawA, rawB);
  }

  // ---- composite keys ----

  function PartOf(g: GroupBy, e: Event): string {
    match g case ByActor => e.actor case ByPath => e.path case ByMachine => ""
  }

  ghost predicate Meets(x: string, y: string, p: string, q: string) { x + ":" + p == y + ":" + q }

  /** Two install ids can make one composite key exactly when one of them, followed by a
      colon, is how the other begins. */
  lemma IdsMeetExactly(x: string, y: string)
    requires x != y
    ensures (exists p, q :: Meets(x, y, p, q)) <==> x + ":" <= y || y + ":" <= x
  {
    if p, q :| Meets(x, y, p, q) { LongerBegins(x, y, p, q); }
    if x + ":" <= y { Extended(x, y); }
    if y + ":" <= x { Extended(y, x); }
  }

  lemma LongerBegins(x: string, y: string, p: string, q: string)
    requires x != y && Meets(x, y, p, q)
    ensures x + ":" <= y || y + ":" <= x
  {
    var whole := x + ":" + p;
    assert whole[..|x|] == x && whole[..|y|] == y;
    assert whole[..|x| + 1] == x + ":" && whole[..|y| + 1] == y + ":";
    if |x| < |y| { assert y[..|x| + 1] == x + ":"; } else { assert |y| < |x| && x[..|y| + 1] == y + ":"; }
  }

  lemma Extended(x: string, y: string)
    requires x + ":" <= y
    ensures exists p, q :: Meets(x, y, p, q)
    ensures exists p, q :: Meets(y, x, q, p)
  {
    var rest := y[|x| + 1..];
    assert y == x + ":" + rest;
    assert x + ":" + (rest + ":") == y + ":" + "";
    assert Meets(x, y, rest + ":", "") && Meets(y, x, "", rest + ":");
  }

  /** Rows of two machines can share a path or actor key exactly when one install id, followed
      by a colon, begins the other. */
  lemma RowsMergeExactly(g: GroupBy, x: string, y: string)
    requires !g.ByMachine? && x != y
    ensures (exists a: Event, b: Event :: a.machine == x && b.machine == y && KeyFor(g, a) == KeyFor(g, b)) <==>
              x + ":" <= y || y + ":" <= x
  {
    IdsMeetExactly(x, y);
    if a: Event, b: Event :| a.machine == x && b.machine == y && KeyFor(g, a) == KeyFor(g, b) {
      assert Meets(x, y, PartOf(g, a), PartOf(g, b));
    }
    if p, q :| Meets(x, y, p, q) {
      var a, b := EventAt(x, p), EventAt(y, q);
      assert a.machine == x && b.machine == y && KeyFor(g, a) == KeyFor(g, b);
    }
  }

  function EventAt(machine: string, part: string): Event {
    Event("", "", part, part, machine, "", "", Tokens(0, 0, 0, 0), 0, SOURCE, 0)
  }

  /** Rows of different machines never merge while neither install id holds a colon. */
  lemma KeysNeverMerge(g: GroupBy, a: Event, b: Event)
    requires ColonFree(a.machine) && ColonFree(b.machine)
    ensures KeyFor(g, a) == KeyFor(g, b) <==> a.machine == b.machine && PartOf(g, a) == PartOf(g, b)
  {
    if !g.ByMachine? {
      if a.machine != b.machine {
        NotABeginning(a.machine, b.machine);
        NotABeginning(b.machine, a.machine);
        RowsMergeExactly(g, a.machine, b.machine);
      } else {
        assert KeyFor(g, a)[|a.machine| + 1..] == PartOf(g, a) && KeyFor(g, b)[|b.machine| + 1..] == PartOf(g, b);
      }
    }
  }

  lemma ColonInside(x: string, y: string)
    requires x + ":" <= y
    ensures !ColonFree(y)
  {
    assert y[|x|] == (x + ":")[|x|] == ':';
  }

  lemma NotABeginning(x: string, y: string)
    requires ColonFree(y)
    ensures !(x + ":" <= y)
  {
    if x + ":" <= y { ColonInside(x, y); }
  }

  /** What the console sends back for a row: its raw key, or the key when that is empty. */
  function RawKeyOrKey(row: BreakdownRow): string { if row.rawKey != "" then row.rawKey else row.key }

  /** Putting hostnames in changes no figure, and the row's original key is still to be had
      from it, except for a machine row with a blank install id that has a hostname. */
  lemma RenamedKeepsRow(g: GroupBy, hosts: map<string, string>, row: BreakdownRow)
    requires row.rawKey == ""
    ensures Renamed(g, hosts, row).figures == row.figures
    ensures g.ByMachine? ==>
              Renamed(g, hosts, row).key == if row.key in hosts && hosts[row.key] != "" then hosts[row.key] else row.key
    ensures RawKeyOrKey(Renamed(g, hosts, row)) == row.key <==> !(g.ByMachine? && row.key == "" && HasHostname(hosts, ""))
  {
    CutHead(row.key);
  }

  /** The exception: on a row with a blank install id and hostname `host`, what the console
      sends back is the hostname. */
  lemma BlankIdIsLost(host: string, figures: Totals)
    requires host != ""
    ensures RawKeyOrKey(Renamed(ByMachine, map["" := host], BreakdownRow("", "", figures))) == host
  {}

  /** splitMachinePrefix in the console. */
  function SplitMachinePrefix(key: string): (Option<string>, string) {
    match Cut(key) case None => (None, key) case Some((machine, path)) => (Some(machine), path)
  }

  /** The console's split of a displayed key gives back the exact path, colons included,
      if and only if the prefix that is shown holds no colon. */
  lemma ConsoleRecoversPath(shown: string, path: string)
    ensures SplitMachinePrefix(shown + ":" + path).1 == path <==> ColonFree(shown)
    ensures ColonFree(shown) ==> SplitMachinePrefix(shown + ":" + path).0 == Some(shown)
  {
    CutUndoesJoin(shown, path);
    CutHead(shown + ":" + path);
    CutSomewhere(shown, path);
    var (head, tail) := Cut(shown + ":" + path).value;
    if tail == path {
      assert |head| == |shown|;
      assert head == (head + ":" + tail)[..|head|];
      assert shown == (shown + ":" + path)[..|shown|];
    }
  }

  /** From an event's own key, through the hostname pass, to the path the console shows. */
  lemma PathSurvivesDisplay(hosts: map<string, string>, e: Event, figures: Totals, g: GroupBy)
    requires !g.ByMachine? && ColonFree(e.machine)
    ensures var row := Renamed(g, hosts, BreakdownRow(KeyFor(g, e), "", figures));
            var shown := if HasHostname(hosts, e.machine) then hosts[e.machine] else e.machine;
            && row.key == shown + ":" + PartOf(g, e)
            && (SplitMachinePrefix(row.key).1 == PartOf(g, e) <==> ColonFree(shown))
            && RawKeyOrKey(row) == KeyFor(g, e)
  {
    CutUndoesJoin(e.machine, PartOf(g, e));
    var shown := if HasHostname(hosts, e.machine) then hosts[e.machine] else e.machine;
    ConsoleRecoversPath(shown, PartOf(g, e));
    RenamedKeepsRow(g, hosts, BreakdownRow(KeyFor(g, e), "", figures));
  }

  // ---- drilling down from a machine row ----

  /** Filtering on the machine a row stands for, in the same window and under the same scan
      root filter, totals what the row says, for every row with an install id. */
  lemma DrillDownAgrees(t: Tables, start: int, end: int, f: Filter, raw: SummaryResult, i: nat, g: GroupBy,
                        below: SummaryResult)
    requires f.machine == "" && RawAnswer(t.events, Chosen(start, end, f), ByMachine, raw)
    requires i < |raw.breakdown| && raw.breakdown[i].key != ""
    requires var shown := RenamedAll(ByMachine, Hostnames(t.machines), raw.breakdown)[i];
             Answer(t, Chosen(start, end, f.(machine := RawKeyOrKey(shown))), g, below)
    ensures below.totals == RenamedAll(ByMachine, Hostnames(t.machines), raw.breakdown)[i].figures
  {
    var row, p, q := raw.breakdown[i], Chosen(start, end, f), Chosen(start, end, f.(machine := raw.breakdown[i].key));
    assert row in raw.breakdown;
    RenamedKeepsRow(ByMachine, Hostnames(t.machines), row);
    forall m: Measure ensures Figure(below.totals, m) == Figure(row.figures, m) {
      LedgerSumCongruent(t.events, Both(p, HasKey(ByMachine, row.key)), q, m);
    }
    FiguresSettle(below.totals, row.figures);
  }

  /** Without a hostname, the row of blank install ids sends back no filter at all, so drilling
      down agrees exactly when no named install reports in the window. */
  lemma BlankDrillDown(t: Tables, start: int, end: int, f: Filter, raw: SummaryResult, i: nat, g: GroupBy,
                       below: SummaryResult)
    requires f.machine == "" && RawAnswer(t.events, Chosen(start, end, f), ByMachine, raw)
    requires i < |raw.breakdown| && raw.breakdown[i].key == "" && !HasHostname(Hostnames(t.machines), "")
    requires var shown := RenamedAll(ByMachine, Hostnames(t.machines), raw.breakdown)[i];
             Answer(t, Chosen(start, end, f.(machine := RawKeyOrKey(shown))), g, below)
    ensures below.totals == raw.totals
    ensures below.totals == raw.breakdown[i].figures <==> raw.reportingInstalls == 0
  {
    var row, p := raw.breakdown[i], Chosen(start, end, f);
    assert row in raw.breakdown;
    forall m: Measure
      ensures Figure(below.totals, m) == Figure(raw.totals, m)
      ensures Figure(raw.totals, m) == Figure(row.figures, m) + LedgerSum(t.events, Both(p, Named), m)
    {
      LedgerSumCongruent(t.events, Chosen(start, end, f.(machine := "")), p, m);
      LedgerSumSplits(t.events, p, Both(p, HasKey(ByMachine, "")), Both(p, Named), m);
    }
    FiguresSettle(below.totals, raw.totals);
    NamedTurns(t.events, p);
    assert Figure(raw.totals, Turns) == Figure(row.figures, Turns) + LedgerSum(t.events, Both(p, Named), Turns);
    if LedgerMachines(t.events, p) == {} {
      forall m: Measure ensures Figure(raw.totals, m) == Figure(row.figures, m) { LedgerSumNone(t.events, Both(p, Named), m); }
      FiguresSettle(raw.totals, row.figures);
    }
  }

  predicate Named(e: Event) { e.machine != "" }

  lemma NamedTurns(table: Rows, p: Event -> bool)
    ensures LedgerMachines(table, p) == {} <==> forall id :: id in table ==> !(p(table[id]) && Named(table[id]))
    ensures LedgerMachines(table, p) != {} ==> LedgerSum(table, Both(p, Named), Turns) > 0
  {
    if id :| id in table && p(table[id]) && Named(table[id]) {
      assert table[id].machine in LedgerMachines(table, p);
      var f := RowAmount(table, Both(p, Named), Turns);
      SumRemove(table.Keys, f, id);
      SumMonotone(table.Keys - {id}, _ => 0, f);
      SumWiden({}, table.Keys - {id}, _ => 0);
    }
  }

  // ---- scan roots partition usage ----

  /** The value the console sends to filter on a scan root. */
  function RootFilter(machine: string, root: (string, string)): Filter { Filter(machine, root.0 + ":" + root.1) }

  /** The filter wants exactly the events of its scan root if and only if the install id
      holds no colon. */
  lemma RootFilterSelects(root: (string, string), e: Event)
    requires (e.machine, e.scanRoot) == root
    ensures Wanted(RootFilter("", root), e) <==> ColonFree(root.0)
  {
    CutUndoesJoin(root.0, root.1);
    assert |root.0 + ":" + root.1| >= 1;
  }

  /** The root's filter value reads back as the event's machine and scan root. */
  predicate Claims(root: (string, string), e: Event) { Cut(root.0 + ":" + root.1) == Some((e.machine, e.scanRoot)) }

  lemma RootFilterWants(machine: string, root: (string, string), e: Event)
    ensures Wanted(RootFilter(machine, root), e) <==> Wanted(Filter(machine, ""), e) && Claims(root, e)
  {
    assert |root.0 + ":" + root.1| >= 1;
  }

  function Claimants(roots: set<(string, string)>, e: Event): set<(string, string)> {
    set root | root in roots && Claims(root, e)
  }

  /** An event of a registered root has that root as its only claimant exactly when its
      install id holds no colon and no other registered root has the same filter value. */
  lemma SoleClaimExactly(roots: set<(string, string)>, e: Event)
    requires (e.machine, e.scanRoot) in roots
    ensures Claimants(roots, e) == {(e.machine, e.scanRoot)} <==>
              ColonFree(e.machine)
              && forall root :: root in roots && root.0 + ":" + root.1 == e.machine + ":" + e.scanRoot ==> root == (e.machine, e.scanRoot)
    ensures !ColonFree(e.machine) ==> Claimants(roots, e) == {}
    ensures ColonFree(e.machine) ==> (e.machine, e.scanRoot) in Claimants(roots, e)
  {
    var own := (e.machine, e.scanRoot);
    CutUndoesJoin(e.machine, e.scanRoot);
    forall root | root in roots && Claims(root, e)
      ensures ColonFree(e.machine) && root.0 + ":" + root.1 == e.machine + ":" + e.scanRoot
    {
      CutHead(root.0 + ":" + root.1);
    }
    assert Claims(own, e) <==> ColonFree(e.machine);
    if Claimants(roots, e) == {own} {
      assert own in Claimants(roots, e);
      forall root | root in roots && root.0 + ":" + root.1 == e.machine + ":" + e.scanRoot ensures root == own {
        assert root in Claimants(roots, e);
      }
    }
  }

  /** Each row's figure, as often as roots claim it. */
  ghost function ClaimAmount(table: Rows, p: Event -> bool, roots: set<(string, string)>, m: Measure): string -> int {
    id => if id in table && p(table[id]) then |Claimants(roots, table[id])| * Amount(m, table[id]) else 0
  }

  ghost function RootSum(table: Rows, start: int, end: int, machine: string, m: Measure): ((string, string)) -> int {
    root => LedgerSum(table, Chosen(start, end, RootFilter(machine, root)), m)
  }

  lemma OneMoreRoot(table: Rows, p: Event -> bool, roots: set<(string, string)>, root: (string, string), m: Measure,
                    one: Event -> bool, id: string)
    requires root in roots && id in table && (one(table[id]) <==> p(table[id]) && Claims(root, table[id]))
    ensures ClaimAmount(table, p, roots, m)(id) == RowAmount(table, one, m)(id) + ClaimAmount(table, p, roots - {root}, m)(id)
  {
    ClaimantsLess(roots, root, table[id]);
    Distribute(|Claimants(roots - {root}, table[id])|, Amount(m, table[id]));
  }

  lemma ClaimantsLess(roots: set<(string, string)>, root: (string, string), e: Event)
    requires root in roots
    ensures |Claimants(roots, e)| == |Claimants(roots - {root}, e)| + if Claims(root, e) then 1 else 0
  {
    if Claims(root, e) {
      assert Claimants(roots, e) == Claimants(roots - {root}, e) + {root};
    } else {
      assert Claimants(roots, e) == Claimants(roots - {root}, e);
    }
  }

  lemma Distribute(n: nat, x: int)
    ensures (n + 1) * x == x + n * x
  {}

  lemma {:induction false} RootsAddUp(table: Rows, start: int, end: int, machine: string,
                                      roots: set<(string, string)>, m: Measure)
    ensures SumOver(roots, RootSum(table, start, end, machine, m)) ==
            SumOver(table.Keys, ClaimAmount(table, Chosen(start, end, Filter(machine, "")), roots, m))
    decreases roots
  {
    var p := Chosen(start, end, Filter(machine, ""));
    if roots == {} {
      forall id | id in table ensures ClaimAmount(table, p, roots, m)(id) == 0 { assert Claimants(roots, table[id]) == {}; }
      SumWiden({}, table.Keys, ClaimAmount(table, p, roots, m));
    } else {
      var root :| root in roots;
      var rest, one := roots - {root}, Chosen(start, end, RootFilter(machine, root));
      SumRemove(roots, RootSum(table, start, end, machine, m), root);
      RootsAddUp(table, start, end, machine, rest, m);
      forall id | id in table
        ensures ClaimAmount(table, p, roots, m)(id) == RowAmount(table, one, m)(id) + ClaimAmount(table, p, rest, m)(id)
      {
        RootFilterWants(machine, root, table[id]);
        OneMoreRoot(table, p, roots, root, m, one, id);
      }
      SumAdd(table.Keys, ClaimAmount(table, p, roots, m), RowAmount(table, one, m), ClaimAmount(table, p, rest, m));
    }
  }

  /** Every wanted row of the window has its own root as only claimant. */
  ghost predicate ClaimedOnce(t: Tables, p: Event -> bool) {
    forall id :: id in t.events && p(t.events[id]) ==>
      Claimants(t.scanRoots.Keys, t.events[id]) == {(t.events[id].machine, t.events[id].scanRoot)}
  }

  /** The registered scan roots partition usage: over any window, and under any machine
      filter, their filtered totals add up to the total without a scan root filter. */
  lemma ScanRootsPartition(t: Tables, start: int, end: int, machine: string, m: Measure)
    requires ClaimedOnce(t, Chosen(start, end, Filter(machine, "")))
    ensures SumOver(t.scanRoots.Keys, RootSum(t.events, start, end, machine, m)) ==
            LedgerSum(t.events, Chosen(start, end, Filter(machine, "")), m)
  {
    var p, roots := Chosen(start, end, Filter(machine, "")), t.scanRoots.Keys;
    RootsAddUp(t.events, start, end, machine, roots, m);
    forall id | id in t.events ensures ClaimAmount(t.events, p, roots, m)(id) == RowAmount(t.events, p, m)(id) {
      ClaimedAmount(t, p, id, m);
    }
    SumCongruent(t.events.Keys, ClaimAmount(t.events, p, roots, m), RowAmount(t.events, p, m));
  }

  lemma ClaimedAmount(t: Tables, p: Event -> bool, id: string, m: Measure)
    requires ClaimedOnce(t, p) && id in t.events
    ensures ClaimAmount(t.events, p, t.scanRoots.Keys, m)(id) == RowAmount(t.events, p, m)(id)
  {
    if p(t.events[id]) {
      var claimants := Claimants(t.scanRoots.Keys, t.events[id]);
      assert claimants == {(t.events[id].machine, t.events[id].scanRoot)};
      assert |claimants| == 1;
    }
  }

  /** Machine by machine the condition is exact: the turns of a machine's roots add up to the
      machine's turns if and only if each of its rows in the window is claimed once. */
  lemma PartitionExactly(t: Tables, start: int, end: int, machine: string)
    requires Registered(t) && machine != ""
    ensures SumOver(t.scanRoots.Keys, RootSum(t.events, start, end, machine, Turns)) ==
            LedgerSum(t.events, Chosen(start, end, Filter(machine, "")), Turns) <==>
              ClaimedOnce(t, Chosen(start, end, Filter(machine, "")))
  {
    var p, roots := Chosen(start, end, Filter(machine, "")), t.scanRoots.Keys;
    var claimed, plain := ClaimAmount(t.events, p, roots, Turns), RowAmount(t.events, p, Turns);
    RootsAddUp(t.events, start, end, machine, roots, Turns);
    if ClaimedOnce(t, p) {
      ScanRootsPartition(t, start, end, machine, Turns);
    }
    forall id | id in t.events
      ensures ColonFree(machine) ==> plain(id) <= claimed(id)
      ensures !ColonFree(machine) ==> claimed(id) <= plain(id)
      ensures claimed(id) == plain(id) && p(t.events[id]) ==>
                Claimants(roots, t.events[id]) == {(t.events[id].machine, t.events[id].scanRoot)}
    {
      TurnsClaimed(t, p, id, machine);
    }
    if SumOver(t.events.Keys, claimed) == SumOver(t.events.Keys, plain) {
      forall id | id in t.events ensures claimed(id) == plain(id) {
        if ColonFree(machine) { SumsMeet(t.events.Keys, plain, claimed, id); } else { SumsMeet(t.events.Keys, claimed, plain, id); }
      }
    }
  }

  lemma TurnsClaimed(t: Tables, p: Event -> bool, id: string, machine: string)
    requires Registered(t) && id in t.events && (p(t.events[id]) ==> t.events[id].machine == machine)
    ensures var claimed, plain := ClaimAmount(t.events, p, t.scanRoots.Keys, Turns)(id), RowAmount(t.events, p, Turns)(id);
            var e := t.events[id];
            && (if ColonFree(machine) then plain <= claimed else claimed <= plain)
            && (claimed == plain && p(e) ==> Claimants(t.scanRoots.Keys, e) == {(e.machine, e.scanRoot)})
  {
    var e := t.events[id];
    var claimants, own := Claimants(t.scanRoots.Keys, e), (e.machine, e.scanRoot);
    SoleClaimExactly(t.scanRoots.Keys, e);
    if p(e) && ColonFree(machine) {
      assert claimants == (claimants - {own}) + {own};
      assert |claimants| == |claimants - {own}| + 1;
    }
  }

  /** Colon-free install ids are claimed once. */
  lemma ColonFreeClaims(t: Tables, p: Event -> bool)
    requires Registered(t) && forall root :: root in t.scanRoots ==> ColonFree(root.0)
    ensures ClaimedOnce(t, p)
  {
    forall id | id in t.events && p(t.events[id])
      ensures Claimants(t.scanRoots.Keys, t.events[id]) == {(t.events[id].machine, t.events[id].scanRoot)}
    {
      var e := t.events[id];
      SoleClaimExactly(t.scanRoots.Keys, e);
      forall root | root in t.scanRoots.Keys && root.0 + ":" + root.1 == e.machine + ":" + e.scanRoot
        ensures root == (e.machine, e.scanRoot)
      {
        CutUndoesJoin(root.0, root.1);
        CutUndoesJoin(e.machine, e.scanRoot);
      }
    }
  }

  // ---- the rows of the windows table ----

  ghost predicate PricedRows(table: Rows) {
    forall id :: id in table ==> table[id].cost == CostForUsage(table[id].model, table[id].tokens)
  }

  predicate NonNegative(t: Tokens) { t.input >= 0 && t.output >= 0 && t.cacheRead >= 0 && t.cacheCreation >= 0 }

  lemma TimesNonNegative(x: int, r: nat)
    requires x >= 0
    ensures x * r >= 0
  {}

  lemma CostNonNegative(model: string, t: Tokens)
    requires NonNegative(t)
    ensures CostForUsage(model, t) >= 0
  {
    var rate := RateOf(ModelFamily(model));
    TimesNonNegative(t.input, rate.input);
    TimesNonNegative(t.output, rate.output);
    TimesNonNegative(t.cacheRead, rate.cacheRead);
    TimesNonNegative(t.cacheCreation, rate.cacheWrite);
  }

  ghost predicate NonNegativeRows(table: Rows) { PricedRows(table) && forall id :: id in table ==> NonNegative(table[id].tokens) }

  lemma LaterStartIsLess(table: Rows, start: int, later: int, end: int, f: Filter, m: Measure)
    requires NonNegativeRows(table) && start <= later
    ensures LedgerSum(table, Chosen(later, end, f), m) <= LedgerSum(table, Chosen(start, end, f), m)
  {
    forall id | id in table ensures Amount(m, table[id]) >= 0 { CostNonNegative(table[id].model, table[id].tokens); }
    SumMonotone(table.Keys, RowAmount(table, Chosen(later, end, f), m), RowAmount(table, Chosen(start, end, f), m));
  }

  ghost function WindowSum(table: Rows, w: Window, now: int, f: Filter, m: Measure): int
    requires !w.Unknown?
  {
    LedgerSum(table, Chosen(StartOf(w, now), now, f), m)
  }

  /** The rows of the fixed table are nested under every filter. Before 2000 the lifetime
      row is empty instead of largest. */
  lemma WindowRowsNest(table: Rows, f: Filter, now: int, m: Measure)
    requires NonNegativeRows(table)
    ensures WindowSum(table, Last5h, now, f, m) <= WindowSum(table, Last24h, now, f, m)
    ensures WindowSum(table, Today, now, f, m) <= WindowSum(table, Last24h, now, f, m)
    ensures WindowSum(table, Today, now, f, m) <= WindowSum(table, Week, now, f, m)
    ensures WindowSum(table, Today, now, f, m) <= WindowSum(table, Month, now, f, m) <= WindowSum(table, Year, now, f, m)
    ensures now >= Y2000 ==> WindowSum(table, Year, now, f, m) <= WindowSum(table, Lifetime, now, f, m)
    ensures now < Y2000 ==> WindowSum(table, Lifetime, now, f, m) == 0
  {
    WindowsNest(now);
    LaterStartIsLess(table, StartOf(Last24h, now), StartOf(Last5h, now), now, f, m);
    LaterStartIsLess(table, StartOf(Last24h, now), StartOf(Today, now), now, f, m);
    LaterStartIsLess(table, StartOf(Week, now), StartOf(Today, now), now, f, m);
    LaterStartIsLess(table, StartOf(Month, now), StartOf(Today, now), now, f, m);
    LaterStartIsLess(table, StartOf(Year, now), StartOf(Month, now), now, f, m);
    if now >= Y2000 {
      LaterStartIsLess(table, StartOf(Lifetime, now), StartOf(Year, now), now, f, m);
    } else {
      LedgerSumNone(table, Chosen(StartOf(Lifetime, now), now, f), m);
    }
  }
}
