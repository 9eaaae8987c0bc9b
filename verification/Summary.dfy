/** Group-by aggregation of a window's events (internal/domain/usage/summary.go). */
module Summary {
  import opened Basics
  import opened Ledger

  datatype GroupBy = ByActor | ByPath | ByMachine

  datatype Totals = Totals(tokens: int, cost: int, turns: int)

  const ZERO := Totals(0, 0, 0)

  function Plus(a: Totals, b: Totals): Totals { Totals(a.tokens + b.tokens, a.cost + b.cost, a.turns + b.turns) }

  function Figure(t: Totals, m: Measure): int {
    match m case TokenCount => t.tokens case Cost => t.cost case Turns => t.turns
  }

  datatype BreakdownRow = BreakdownRow(key: string, rawKey: string, figures: Totals)

  datatype SummaryResult = SummaryResult(totals: Totals, breakdown: seq<BreakdownRow>, reportingInstalls: nat)

  function KeyFor(g: GroupBy, e: Event): string {
    match g
    case ByActor => e.machine + ":" + e.actor
    case ByPath => e.machine + ":" + e.path
    case ByMachine => e.machine
  }

  predicate ExcludedFromPathBreakdown(e: Event) { e.path == e.actor }

  /** The event has a row in the breakdown. */
  predicate Counted(g: GroupBy, e: Event) { !(g.ByPath? && ExcludedFromPathBreakdown(e)) }

  // ---- sums ----

  function FiguresOf(e: Event): Totals { Totals(TokensFor(e.tokens), e.cost, 1) }

  /** The sum of one figure over the events that meet a condition. */
  function Total(events: seq<Event>, p: Event -> bool, m: Measure): int {
    if events == [] then 0 else (if p(events[0]) then Amount(m, events[0]) else 0) + Total(events[1..], p, m)
  }

  function Sums(events: seq<Event>, p: Event -> bool): Totals {
    Totals(Total(events, p, TokenCount), Total(events, p, Cost), Total(events, p, Turns))
  }

  function HasKey(g: GroupBy, key: string): Event -> bool { e => Counted(g, e) && KeyFor(g, e) == key }

  lemma {:induction false} TotalConcat(a: seq<Event>, b: seq<Event>, p: Event -> bool, m: Measure)
    ensures Total(a + b, p, m) == Total(a, p, m) + Total(b, p, m)
  {
    if a == [] {
      assert a + b == b;
    } else {
      assert (a + b)[1..] == a[1..] + b;
      TotalConcat(a[1..], b, p, m);
    }
  }

  lemma WithoutOne(b: seq<Event>, k: nat)
    requires k < |b|
    ensures multiset(b) == multiset{b[k]} + multiset(b[..k] + b[k + 1..])
  {
    assert b == b[..k] + [b[k]] + b[k + 1..];
  }

  lemma TotalWithoutOne(b: seq<Event>, k: nat, p: Event -> bool, m: Measure)
    requires k < |b|
    ensures Total(b, p, m) == (if p(b[k]) then Amount(m, b[k]) else 0) + Total(b[..k] + b[k + 1..], p, m)
  {
    TotalConcat(b[..k], b[k + 1..], p, m);
    TotalConcat(b[..k], b[k..], p, m);
    assert b == b[..k] + b[k..] && b[k..][1..] == b[k + 1..];
  }

  lemma FirstElsewhere(a: seq<Event>, b: seq<Event>) returns (k: nat)
    requires multiset(a) == multiset(b) && a != []
    ensures k < |b| && b[k] == a[0] && multiset(a[1..]) == multiset(b[..k] + b[k + 1..])
  {
    assert a[0] in multiset(a);
    assert a[0] in b;
    k :| 0 <= k < |b| && b[k] == a[0];
    WithoutOne(a, 0);
    WithoutOne(b, k);
    assert a[..0] + a[1..] == a[1..];
    assert multiset(a[1..]) == multiset(a) - multiset{a[0]};
    assert multiset(b[..k] + b[k + 1..]) == multiset(b) - multiset{a[0]};
  }

  /** Sums depend only on which events there are, not on their order. */
  lemma {:induction false} TotalPermuted(a: seq<Event>, b: seq<Event>, p: Event -> bool, m: Measure)
    requires multiset(a) == multiset(b)
    ensures Total(a, p, m) == Total(b, p, m)
  {
    if a == [] {
      assert |multiset(b)| == |b|;
    } else {
      var k := FirstElsewhere(a, b);
      TotalPermuted(a[1..], b[..k] + b[k + 1..], p, m);
      TotalWithoutOne(b, k, p, m);
    }
  }

  lemma {:induction false} TotalCongruent(events: seq<Event>, p: Event -> bool, q: Event -> bool, m: Measure)
    requires forall e :: e in events ==> p(e) == q(e)
    ensures Total(events, p, m) == Total(events, q, m)
  {
    if events != [] { TotalCongruent(events[1..], p, q, m); }
  }

  /** A condition that splits into two disjoint ones splits the sum. */
  lemma {:induction false} TotalSplits(events: seq<Event>, whole: Event -> bool, p: Event -> bool, q: Event -> bool,
                                       m: Measure)
    requires forall e :: e in events ==> (whole(e) <==> p(e) || q(e)) && !(p(e) && q(e))
    ensures Total(events, whole, m) == Total(events, p, m) + Total(events, q, m)
  {
    if events != [] { TotalSplits(events[1..], whole, p, q, m); }
  }

  lemma {:induction false} TotalNone(events: seq<Event>, p: Event -> bool, m: Measure)
    requires forall e :: e in events ==> !p(e)
    ensures Total(events, p, m) == 0
  {
    if events != [] { TotalNone(events[1..], p, m); }
  }

  // ---- what a breakdown is ----

  function KeysOf(events: seq<Event>, g: GroupBy): set<string> {
    set e | e in events && Counted(g, e) :: KeyFor(g, e)
  }

  function RowFor(events: seq<Event>, g: GroupBy, key: string): BreakdownRow {
    BreakdownRow(key, "", Sums(events, HasKey(g, key)))
  }

  /** Cost descending, then key ascending. */
  predicate Before(a: BreakdownRow, b: BreakdownRow) {
    a.figures.cost > b.figures.cost || (a.figures.cost == b.figures.cost && Less(a.key, b.key))
  }

  ghost predicate Ordered(rows: seq<BreakdownRow>) {
    forall i, j :: 0 <= i < j < |rows| ==> Before(rows[i], rows[j])
  }

  /** One row a key, holding exactly that key's sums, strictly ordered. */
  ghost predicate IsBreakdown(events: seq<Event>, g: GroupBy, rows: seq<BreakdownRow>) {
    && Ordered(rows)
    && forall row :: row in rows <==> row.key in KeysOf(events, g) && row == RowFor(events, g, row.key)
  }

  function MachinesOf(events: seq<Event>): set<string> { set e | e in events && e.machine != "" :: e.machine }

  ghost predicate IsAggregate(events: seq<Event>, g: GroupBy, r: SummaryResult) {
    r.totals == Sums(events, Any()) && IsBreakdown(events, g, r.breakdown) && r.reportingInstalls == |MachinesOf(events)|
  }

  // ---- sorting ----

  function Insert(row: BreakdownRow, rows: seq<BreakdownRow>): seq<BreakdownRow> {
    if rows == [] then [row]
    else if Before(row, rows[0]) then [row] + rows
    else [rows[0]] + Insert(row, rows[1..])
  }

  function SortRows(rows: seq<BreakdownRow>): seq<BreakdownRow> {
    if rows == [] then [] else Insert(rows[0], SortRows(rows[1..]))
  }

  lemma BeforeTransitive(a: BreakdownRow, b: BreakdownRow, c: BreakdownRow)
    requires Before(a, b) && Before(b, c)
    ensures Before(a, c)
  {
    if Less(a.key, b.key) && Less(b.key, c.key) { LessTransitive(a.key, b.key, c.key); }
  }

  lemma {:induction false} InsertOrders(row: BreakdownRow, rows: seq<BreakdownRow>)
    requires Ordered(rows) && forall r :: r in rows ==> r.key != row.key
    ensures Ordered(Insert(row, rows))
    ensures forall r :: r in Insert(row, rows) <==> r == row || r in rows
  {
    if rows != [] {
      LessTotal(row.key, rows[0].key);
      if Before(row, rows[0]) {
        forall j | 0 <= j < |rows| ensures Before(row, rows[j]) {
          if j > 0 { BeforeTransitive(row, rows[0], rows[j]); }
        }
      } else {
        InsertOrders(row, rows[1..]);
        assert rows == [rows[0]] + rows[1..];
        assert forall r :: r in Insert(row, rows[1..]) ==> Before(rows[0], r);
      }
    }
  }

  lemma {:induction false} SortOrders(rows: seq<BreakdownRow>)
    requires forall i, j :: 0 <= i < j < |rows| ==> rows[i].key != rows[j].key
    ensures Ordered(SortRows(rows))
    ensures forall r :: r in SortRows(rows) <==> r in rows
  {
    if rows != [] {
      SortOrders(rows[1..]);
      InsertOrders(rows[0], SortRows(rows[1..]));
      assert rows == [rows[0]] + rows[1..];
    }
  }

  // ---- Aggregate ----

  function FiguresAt(byKey: map<string, BreakdownRow>, key: string): Totals {
    if key in byKey then byKey[key].figures else ZERO
  }

  /** What is gathered so far and what is still to come make up the whole. */
  ghost predicate Gathered(acc: Totals, rest: seq<Event>, all: seq<Event>, p: Event -> bool) {
    forall m: Measure :: Figure(acc, m) + Total(rest, p, m) == Total(all, p, m)
  }

  lemma GatherOne(acc: Totals, rest: seq<Event>, all: seq<Event>, p: Event -> bool)
    requires rest != [] && Gathered(acc, rest, all, p)
    ensures Gathered(if p(rest[0]) then Plus(acc, FiguresOf(rest[0])) else acc, rest[1..], all, p)
  {
    var next := if p(rest[0]) then Plus(acc, FiguresOf(rest[0])) else acc;
    forall m: Measure ensures Figure(next, m) + Total(rest[1..], p, m) == Total(all, p, m) {
      assert Figure(acc, m) + Total(rest, p, m) == Total(all, p, m);
    }
  }

  lemma GatheredAll(acc: Totals, all: seq<Event>, p: Event -> bool)
    requires Gathered(acc, [], all, p)
    ensures acc == Sums(all, p)
  {
    assert Figure(acc, TokenCount) == Total(all, p, TokenCount);
    assert Figure(acc, Cost) == Total(all, p, Cost);
    assert Figure(acc, Turns) == Total(all, p, Turns);
  }

  ghost predicate RowsNamed(byKey: map<string, BreakdownRow>) {
    forall k :: k in byKey ==> byKey[k].key == k && byKey[k].rawKey == ""
  }

  ghost predicate KeysGathered(byKey: map<string, BreakdownRow>, rest: seq<Event>, all: seq<Event>, g: GroupBy) {
    forall k: string :: Gathered(FiguresAt(byKey, k), rest, all, HasKey(g, k))
  }

  function AddRow(byKey: map<string, BreakdownRow>, e: Event, g: GroupBy): map<string, BreakdownRow> {
    if Counted(g, e) then
      byKey[KeyFor(g, e) := BreakdownRow(KeyFor(g, e), "", Plus(FiguresAt(byKey, KeyFor(g, e)), FiguresOf(e)))]
    else byKey
  }

  lemma KeysGatherOne(byKey: map<string, BreakdownRow>, rest: seq<Event>, all: seq<Event>, g: GroupBy)
    requires rest != [] && KeysGathered(byKey, rest, all, g)
    ensures KeysGathered(AddRow(byKey, rest[0], g), rest[1..], all, g)
  {
    var next := AddRow(byKey, rest[0], g);
    forall k: string ensures Gathered(FiguresAt(next, k), rest[1..], all, HasKey(g, k)) {
      assert Gathered(FiguresAt(byKey, k), rest, all, HasKey(g, k));
      GatherOne(FiguresAt(byKey, k), rest, all, HasKey(g, k));
    }
  }

  lemma KeysOfFirst(events: seq<Event>, g: GroupBy)
    requires events != []
    ensures KeysOf(events, g) == KeysOf(events[1..], g) + if Counted(g, events[0]) then {KeyFor(g, events[0])} else {}
    ensures MachinesOf(events) == MachinesOf(events[1..]) + if events[0].machine != "" then {events[0].machine} else {}
  {
    assert events == [events[0]] + events[1..];
  }

  lemma ListOne(order: seq<string>, keys: set<string>, key: string)
    requires Lists(order, keys) && key !in keys
    ensures Lists(order + [key], keys + {key})
  {
    assert key !in order;
  }

  /** The variables of Aggregate's loop. */
  datatype Tally = Tally(totals: Totals, machines: set<string>, byKey: map<string, BreakdownRow>, order: seq<string>)

  ghost predicate Halfway(t: Tally, rest: seq<Event>, all: seq<Event>, g: GroupBy) {
    && Gathered(t.totals, rest, all, Any())
    && t.machines + MachinesOf(rest) == MachinesOf(all)
    && RowsNamed(t.byKey) && KeysGathered(t.byKey, rest, all, g)
    && t.byKey.Keys + KeysOf(rest, g) == KeysOf(all, g)
    && Lists(t.order, t.byKey.Keys)
  }

  lemma CountOne(t: Tally, rest: seq<Event>, all: seq<Event>, g: GroupBy)
    requires rest != [] && Halfway(t, rest, all, g)
    ensures var e, key := rest[0], KeyFor(g, rest[0]);
            Halfway(Tally(Plus(t.totals, FiguresOf(e)),
                          if e.machine != "" then t.machines + {e.machine} else t.machines,
                          AddRow(t.byKey, e, g),
                          if Counted(g, e) && key !in t.byKey then t.order + [key] else t.order), rest[1..], all, g)
  {
    GatherOne(t.totals, rest, all, Any());
    KeysGatherOne(t.byKey, rest, all, g);
    CountMachine(t.machines, rest, all);
    CountKey(t.byKey, t.order, rest, all, g);
  }

  lemma CountMachine(machines: set<string>, rest: seq<Event>, all: seq<Event>)
    requires rest != [] && machines + MachinesOf(rest) == MachinesOf(all)
    ensures (if rest[0].machine != "" then machines + {rest[0].machine} else machines) + MachinesOf(rest[1..]) == MachinesOf(all)
  {
    KeysOfFirst(rest, ByMachine);
  }

  lemma AddRowNamed(byKey: map<string, BreakdownRow>, e: Event, g: GroupBy)
    requires RowsNamed(byKey)
    ensures RowsNamed(AddRow(byKey, e, g))
    ensures AddRow(byKey, e, g).Keys == byKey.Keys + if Counted(g, e) then {KeyFor(g, e)} else {}
  {}

  lemma CountKey(byKey: map<string, BreakdownRow>, order: seq<string>, rest: seq<Event>, all: seq<Event>, g: GroupBy)
    requires rest != [] && RowsNamed(byKey) && Lists(order, byKey.Keys)
    requires byKey.Keys + KeysOf(rest, g) == KeysOf(all, g)
    ensures var e, key := rest[0], KeyFor(g, rest[0]);
            var next := AddRow(byKey, e, g);
            && RowsNamed(next) && next.Keys + KeysOf(rest[1..], g) == KeysOf(all, g)
            && Lists(if Counted(g, e) && key !in byKey then order + [key] else order, next.Keys)
  {
    var e, key := rest[0], KeyFor(g, rest[0]);
    var keys, later := byKey.Keys, KeysOf(rest[1..], g);
    KeysOfFirst(rest, g);
    AddRowNamed(byKey, e, g);
    if Counted(g, e) {
      assert keys + (later + {key}) == (keys + {key}) + later;
      if key !in byKey { ListOne(order, keys, key); } else { assert keys + {key} == keys; }
    } else {
      assert later + {} == later && keys + {} == keys;
    }
  }

  method Aggregate(events: seq<Event>, g: GroupBy) returns (result: SummaryResult)
    ensures IsAggregate(events, g, result)
  {
    var totals := ZERO;
    var machines: set<string> := {};
    var byKey: map<string, BreakdownRow> := map[];
    var order: seq<string> := [];
    assert events[0..] == events;
    for i := 0 to |events|
      invariant Halfway(Tally(totals, machines, byKey, order), events[i..], events, g)
    {
      var e := events[i];
      assert events[i..][0] == e && events[i..][1..] == events[i + 1..];
      CountOne(Tally(totals, machines, byKey, order), events[i..], events, g);
      totals := Plus(totals, FiguresOf(e));
      if e.machine != "" {
        machines := machines + {e.machine};
      }
      if g == ByPath && ExcludedFromPathBreakdown(e) { continue; }
      var key := KeyFor(g, e);
      if key !in byKey {
        order := order + [key];
      }
      byKey := byKey[key := BreakdownRow(key, "", Plus(FiguresAt(byKey, key), FiguresOf(e)))];
    }
    assert events[|events|..] == [];
    var rows := seq(|order|, i requires 0 <= i < |order| && order[i] in byKey => byKey[order[i]]);
    AllCounted(Tally(totals, machines, byKey, order), events, g, rows);
    return SummaryResult(totals, SortRows(rows), |machines|);
  }

  lemma AllCounted(t: Tally, events: seq<Event>, g: GroupBy, rows: seq<BreakdownRow>)
    requires Halfway(t, [], events, g)
    requires |rows| == |t.order| && forall i :: 0 <= i < |rows| ==> t.order[i] in t.byKey && rows[i] == t.byKey[t.order[i]]
    ensures IsAggregate(events, g, SummaryResult(t.totals, SortRows(rows), |t.machines|))
  {
    GatheredAll(t.totals, events, Any());
    RowsAreBreakdown(events, g, t.byKey, t.order, rows);
    SortOrders(rows);
  }

  lemma RowsAreBreakdown(events: seq<Event>, g: GroupBy, byKey: map<string, BreakdownRow>, order: seq<string>,
                         rows: seq<BreakdownRow>)
    requires RowsNamed(byKey) && KeysGathered(byKey, [], events, g) && byKey.Keys == KeysOf(events, g)
    requires Lists(order, byKey.Keys) && |rows| == |order| && forall i :: 0 <= i < |order| ==> rows[i] == byKey[order[i]]
    ensures forall row :: row in rows <==> row.key in KeysOf(events, g) && row == RowFor(events, g, row.key)
    ensures forall i, j :: 0 <= i < j < |rows| ==> rows[i].key != rows[j].key
  {
    forall k | k in byKey.Keys ensures byKey[k] == RowFor(events, g, k) && byKey[k] in rows {
      assert Gathered(FiguresAt(byKey, k), [], events, HasKey(g, k));
      GatheredAll(FiguresAt(byKey, k), events, HasKey(g, k));
      assert k in order;
      var i :| 0 <= i < |order| && order[i] == k;
      assert rows[i] == byKey[k];
    }
    forall row | row in rows ensures row.key in byKey.Keys && row == byKey[row.key] {
      var i :| 0 <= i < |rows| && rows[i] == row;
      assert order[i] in byKey.Keys;
    }
  }

  // ---- one result for one multiset of events ----

  lemma {:induction false} OrderedUnique(a: seq<BreakdownRow>, b: seq<BreakdownRow>)
    requires Ordered(a) && Ordered(b) && forall r :: r in a <==> r in b
    ensures a == b
  {
    assert a != [] ==> a[0] in a;
    assert b != [] ==> b[0] in b;
    if a != [] && b != [] {
      assert a[0] in b && b[0] in a;
      FirstsMeet(a, b);
      forall r | r in a[1..] ensures r in b[1..] { RestApart(a, r); assert r in b; }
      forall r | r in b[1..] ensures r in a[1..] { RestApart(b, r); assert r in a; }
      OrderedUnique(a[1..], b[1..]);
      assert a == [a[0]] + a[1..] && b == [b[0]] + b[1..];
    }
  }

  lemma BeforeAsymmetric(a: BreakdownRow, b: BreakdownRow)
    requires Before(a, b)
    ensures !Before(b, a) && a != b
  {
    if Less(a.key, b.key) { LessAsymmetric(a.key, b.key); }
  }

  lemma FirstsMeet(a: seq<BreakdownRow>, b: seq<BreakdownRow>)
    requires Ordered(a) && Ordered(b) && a != [] && b != [] && a[0] in b && b[0] in a
    ensures a[0] == b[0]
  {
    if a[0] != b[0] {
      assert Before(b[0], a[0]);
      BeforeAsymmetric(b[0], a[0]);
    }
  }

  lemma RestApart(a: seq<BreakdownRow>, r: BreakdownRow)
    requires Ordered(a) && a != [] && r in a[1..]
    ensures r != a[0] && r in a
  {
    var k :| 0 <= k < |a[1..]| && a[1..][k] == r;
    assert Before(a[0], a[k + 1]);
    BeforeAsymmetric(a[0], a[k + 1]);
  }

  lemma SumsPermuted(a: seq<Event>, b: seq<Event>, p: Event -> bool)
    requires multiset(a) == multiset(b)
    ensures Sums(a, p) == Sums(b, p)
  {
    TotalPermuted(a, b, p, TokenCount);
    TotalPermuted(a, b, p, Cost);
    TotalPermuted(a, b, p, Turns);
  }

  lemma SameMembers(a: seq<Event>, b: seq<Event>)
    requires multiset(a) == multiset(b)
    ensures forall e :: e in a <==> e in b
  {
    assert forall e :: e in a <==> e in multiset(a);
    assert forall e :: e in b <==> e in multiset(b);
  }

  /** The query has no ORDER BY; Aggregate's whole answer depends only on which events
      there are. */
  lemma AggregateUnique(a: seq<Event>, b: seq<Event>, g: GroupBy, ra: SummaryResult, rb: SummaryResult)
    requires multiset(a) == multiset(b) && IsAggregate(a, g, ra) && IsAggregate(b, g, rb)
    ensures ra == rb
  {
    SumsPermuted(a, b, Any());
    SameMembers(a, b);
    assert KeysOf(a, g) == KeysOf(b, g) && MachinesOf(a) == MachinesOf(b);
    forall k: string ensures RowFor(a, g, k) == RowFor(b, g, k) {
      SumsPermuted(a, b, HasKey(g, k));
    }
    OrderedUnique(ra.breakdown, rb.breakdown);
  }

  // ---- conservation ----

  function SumRows(rows: seq<BreakdownRow>, m: Measure): int {
    if rows == [] then 0 else Figure(rows[0].figures, m) + SumRows(rows[1..], m)
  }

  function HasKeyIn(g: GroupBy, keys: set<string>): Event -> bool { e => Counted(g, e) && KeyFor(g, e) in keys }

  function LeftOut(g: GroupBy): Event -> bool { e => !Counted(g, e) }

  function RowKeys(rows: seq<BreakdownRow>): set<string> { set r | r in rows :: r.key }

  lemma RowKeysFirst(rows: seq<BreakdownRow>)
    requires rows != []
    requires forall i, j :: 0 <= i < j < |rows| ==> rows[i].key != rows[j].key
    ensures RowKeys(rows) == RowKeys(rows[1..]) + {rows[0].key} && rows[0].key !in RowKeys(rows[1..])
  {
    assert rows == [rows[0]] + rows[1..];
  }

  /** Rows with distinct keys, each holding its key's sum, add up to the events they cover. */
  lemma {:induction false} RowsCover(events: seq<Event>, g: GroupBy, rows: seq<BreakdownRow>, m: Measure)
    requires forall i, j :: 0 <= i < j < |rows| ==> rows[i].key != rows[j].key
    requires forall r :: r in rows ==> r == RowFor(events, g, r.key)
    ensures SumRows(rows, m) == Total(events, HasKeyIn(g, RowKeys(rows)), m)
  {
    if rows == [] {
      assert RowKeys(rows) == {};
      TotalNone(events, HasKeyIn(g, RowKeys(rows)), m);
    } else {
      assert rows[0] in rows;
      RowsCover(events, g, rows[1..], m);
      RowKeysFirst(rows);
      TotalSplits(events, HasKeyIn(g, RowKeys(rows)), HasKey(g, rows[0].key), HasKeyIn(g, RowKeys(rows[1..])), m);
    }
  }

  lemma BreakdownKeysDistinct(events: seq<Event>, g: GroupBy, rows: seq<BreakdownRow>)
    requires IsBreakdown(events, g, rows)
    ensures forall i, j :: 0 <= i < j < |rows| ==> rows[i].key != rows[j].key
    ensures RowKeys(rows) == KeysOf(events, g)
  {
    forall i, j | 0 <= i < j < |rows| ensures rows[i].key != rows[j].key {
      assert rows[i] in rows && rows[j] in rows;
      BeforeAsymmetric(rows[i], rows[j]);
    }
    forall k | k in KeysOf(events, g) ensures k in RowKeys(rows) { assert RowFor(events, g, k) in rows; }
  }

  /** Breakdown rows and the events left out of the path breakdown add up to the totals;
      actor and machine breakdowns leave nothing out. */
  lemma BreakdownConserves(events: seq<Event>, g: GroupBy, r: SummaryResult, m: Measure)
    requires IsAggregate(events, g, r)
    ensures Figure(r.totals, m) == SumRows(r.breakdown, m) + Total(events, LeftOut(g), m)
    ensures !g.ByPath? ==> Figure(r.totals, m) == SumRows(r.breakdown, m)
  {
    BreakdownKeysDistinct(events, g, r.breakdown);
    RowsCover(events, g, r.breakdown, m);
    TotalSplits(events, Any(), HasKeyIn(g, KeysOf(events, g)), LeftOut(g), m);
    if !g.ByPath? { TotalNone(events, LeftOut(g), m); }
  }

  function Named(rows: seq<BreakdownRow>): seq<BreakdownRow> {
    if rows == [] then [] else (if rows[0].key != "" then [rows[0]] else []) + Named(rows[1..])
  }

  lemma OneMoreKey(others: set<string>, key: string)
    requires key !in others
    ensures |(others + {key}) - {""}| == |others - {""}| + if key != "" then 1 else 0
  {
    if key != "" {
      assert (others + {key}) - {""} == (others - {""}) + {key};
    } else {
      assert (others + {key}) - {""} == others - {""};
    }
  }

  lemma {:induction false} NamedKeys(rows: seq<BreakdownRow>)
    requires forall i, j :: 0 <= i < j < |rows| ==> rows[i].key != rows[j].key
    ensures |Named(rows)| == |RowKeys(rows) - {""}|
  {
    if rows != [] {
      NamedKeys(rows[1..]);
      RowKeysFirst(rows);
      OneMoreKey(RowKeys(rows[1..]), rows[0].key);
    }
  }

  lemma NamedMachines(events: seq<Event>)
    ensures KeysOf(events, ByMachine) - {""} == MachinesOf(events)
  {
    forall k ensures k in KeysOf(events, ByMachine) && k != "" <==> k in MachinesOf(events) {
      if k in MachinesOf(events) {
        var e :| e in events && e.machine != "" && e.machine == k;
        assert Counted(ByMachine, e) && KeyFor(ByMachine, e) == k;
      }
    }
  }

  /** ReportingInstalls is the same whatever the grouping, and is the number of named rows
      of the machine breakdown. */
  lemma ReportingInstallsAgree(events: seq<Event>, g: GroupBy, r: SummaryResult, byMachine: SummaryResult)
    requires IsAggregate(events, g, r) && IsAggregate(events, ByMachine, byMachine)
    ensures r.reportingInstalls == byMachine.reportingInstalls == |Named(byMachine.breakdown)|
  {
    BreakdownKeysDistinct(events, ByMachine, byMachine.breakdown);
    NamedKeys(byMachine.breakdown);
    NamedMachines(events);
  }

  // ---- a summary, spelled out ----

  function InputOf(events: seq<Event>, p: Event -> bool): int {
    if events == [] then 0 else (if p(events[0]) then events[0].tokens.input else 0) + InputOf(events[1..], p)
  }

  function OutputOf(events: seq<Event>, p: Event -> bool): int {
    if events == [] then 0 else (if p(events[0]) then events[0].tokens.output else 0) + OutputOf(events[1..], p)
  }

  function CacheReadOf(events: seq<Event>, p: Event -> bool): int {
    if events == [] then 0 else (if p(events[0]) then events[0].tokens.cacheRead else 0) + CacheReadOf(events[1..], p)
  }

  function CacheCreationOf(events: seq<Event>, p: Event -> bool): int {
    if events == [] then 0 else (if p(events[0]) then events[0].tokens.cacheCreation else 0) + CacheCreationOf(events[1..], p)
  }

  function CostOf(events: seq<Event>, p: Event -> bool): int {
    if events == [] then 0 else (if p(events[0]) then events[0].cost else 0) + CostOf(events[1..], p)
  }

  function TurnsOf(events: seq<Event>, p: Event -> bool): int {
    if events == [] then 0 else (if p(events[0]) then 1 else 0) + TurnsOf(events[1..], p)
  }

  /** The figures of the events that meet `p`: four token counters, cost and turns, each
      summed by itself. */
  predicate Adds(t: Totals, events: seq<Event>, p: Event -> bool) {
    && t.tokens == InputOf(events, p) + OutputOf(events, p) + CacheReadOf(events, p) + CacheCreationOf(events, p)
    && t.cost == CostOf(events, p) && t.turns == TurnsOf(events, p)
  }

  lemma {:induction false} SumsAdd(events: seq<Event>, p: Event -> bool)
    ensures Adds(Sums(events, p), events, p)
  {
    if events != [] { SumsAdd(events[1..], p); }
  }

  /** The key a row shows for an event. */
  predicate ShownUnder(g: GroupBy, key: string, e: Event) {
    match g
    case ByActor => key == e.machine + ":" + e.actor
    case ByPath => key == e.machine + ":" + e.path && e.path != e.actor
    case ByMachine => key == e.machine
  }

  function Under(g: GroupBy, key: string): Event -> bool { (e: Event) => ShownUnder(g, key, e) }

  ghost predicate HasRowFor(rows: seq<BreakdownRow>, key: string) { exists row :: row in rows && row.key == key }

  /** What Aggregate answers, without its own helpers: the totals of all events; a row for
      exactly the keys events are shown under, once each, with the figures of those events; in
      order of falling cost, then of rising key; and how many named machines there are. */
  lemma AggregateSpelled(events: seq<Event>, g: GroupBy, r: SummaryResult)
    requires IsAggregate(events, g, r)
    ensures Adds(r.totals, events, (e: Event) => true)
    ensures forall row :: row in r.breakdown ==> row.rawKey == "" && Adds(row.figures, events, Under(g, row.key))
    ensures forall key :: HasRowFor(r.breakdown, key) <==> exists e :: e in events && ShownUnder(g, key, e)
    ensures forall i, j :: 0 <= i < j < |r.breakdown| ==>
              var a, b := r.breakdown[i], r.breakdown[j];
              a.figures.cost > b.figures.cost || (a.figures.cost == b.figures.cost && Less(a.key, b.key))
    ensures r.reportingInstalls == |set e | e in events && e.machine != "" :: e.machine|
  {
    TotalsAdd(events, r.totals);
    forall row | row in r.breakdown ensures row.rawKey == "" && Adds(row.figures, events, Under(g, row.key)) {
      RowAdds(events, g, row.key);
    }
    forall key ensures HasRowFor(r.breakdown, key) <==> exists e :: e in events && ShownUnder(g, key, e) {
      KeyShown(events, g, r.breakdown, key);
    }
  }

  lemma {:induction false} AddsCongruent(t: Totals, events: seq<Event>, p: Event -> bool, q: Event -> bool)
    requires (forall e :: e in events ==> p(e) == q(e)) && Adds(t, events, p)
    ensures Adds(t, events, q)
    decreases |events|
  {
    if events != [] {
      SumsAdd(events[1..], p);
      AddsCongruent(Sums(events[1..], p), events[1..], p, q);
    }
  }

  lemma TotalsAdd(events: seq<Event>, t: Totals)
    requires t == Sums(events, Any())
    ensures Adds(t, events, (e: Event) => true)
  {
    SumsAdd(events, Any());
    AddsCongruent(t, events, Any(), (e: Event) => true);
  }

  lemma RowAdds(events: seq<Event>, g: GroupBy, key: string)
    ensures Adds(RowFor(events, g, key).figures, events, Under(g, key))
  {
    SumsAdd(events, HasKey(g, key));
    AddsCongruent(Sums(events, HasKey(g, key)), events, HasKey(g, key), Under(g, key));
  }

  lemma KeyShown(events: seq<Event>, g: GroupBy, rows: seq<BreakdownRow>, key: string)
    requires IsBreakdown(events, g, rows)
    ensures HasRowFor(rows, key) <==> exists e :: e in events && ShownUnder(g, key, e)
  {
    if row :| row in rows && row.key == key {
      var e :| e in events && Counted(g, e) && KeyFor(g, e) == key;
      assert ShownUnder(g, key, e);
    }
    if e :| e in events && ShownUnder(g, key, e) {
      assert Counted(g, e) && KeyFor(g, e) == key;
      assert RowFor(events, g, key) in rows;
    }
  }
}
