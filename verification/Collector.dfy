/** One run of the collector: scan, dedupe, drop what was sent, attribute, post, remember
    (Run in internal/collector/collector.go, internal/collector/state.go). */
module Collector {
  import opened Basics
  import opened Transcript
  import opened GitRoots
  import opened PathStores
  import opened Pricing
  import opened Ledger

  datatype ScannedFile = ScannedFile(path: string, scanRoot: string, name: string, sourceType: string)

  // ---- the sent-id file ----

  datatype SentFile = Missing | Garbled | Saved(ids: seq<string>)

  function SentIds(f: SentFile): set<string> { if f.Saved? then set id | id in f.ids else {} }

  class SentState {
    var sentIds: set<string>

    constructor (ids: set<string>)
      ensures sentIds == ids
    {
      sentIds := ids;
    }

    method MarkSent(id: string)
      modifies this
      ensures sentIds == old(sentIds) + {id}
    {
      sentIds := sentIds + {id};
    }

    /** The loop of Run over the events of an accepted batch. */
    method MarkAllSent(events: seq<IngestEvent>)
      modifies this
      ensures sentIds == old(sentIds) + EventIds(events)
    {
      for i := 0 to |events|
        invariant sentIds == old(sentIds) + EventIds(events[..i])
      {
        assert events[..i + 1] == events[..i] + [events[i]];
        MarkSent(events[i].id);
      }
      assert events[..|events|] == events;
    }

    method FilterUnsent(rows: seq<UsageRow>) returns (out: seq<UsageRow>)
      ensures out == DropSeen(rows, sentIds)
    {
      out := [];
      for i := 0 to |rows|
        invariant out == DropSeen(rows[..i], sentIds)
      {
        assert rows[..i + 1][..i] == rows[..i];
        if rows[i].messageId !in sentIds {
          out := out + [rows[i]];
        }
      }
      assert rows[..|rows|] == rows;
    }

    /** The ids are written in an arbitrary order; reading them back gives the same set. */
    method Save() returns (f: SentFile)
      ensures f.Saved? && SentIds(f) == sentIds
    {
      var ids: seq<string> := [];
      var todo := sentIds;
      while todo != {}
        invariant todo <= sentIds && forall id :: id in ids <==> id in sentIds - todo
        decreases todo
      {
        var id :| id in todo;
        ids, todo := ids + [id], todo - {id};
      }
      f := Saved(ids);
      assert SentIds(f) == sentIds;
    }
  }

  method LoadSentState(f: SentFile) returns (state: SentState?)
    ensures state == null <==> f.Garbled?
    ensures state != null ==> fresh(state) && state.sentIds == SentIds(f)
  {
    match f
    case Missing => state := new SentState({});
    case Garbled => state := null;
    case Saved(ids) => state := new SentState(set id | id in ids);
  }

  // ---- the rows of all files, and the file each id was first found in ----

  function PathsOf(files: seq<ScannedFile>): seq<string> {
    seq(|files|, i requires 0 <= i < |files| => files[i].path)
  }

  function LinesOf(fs: Files, f: ScannedFile): seq<Line> { if f.path in fs then fs[f.path] else [] }

  /** The lines of the first `n` files, file after file. */
  function LinesUpTo(files: seq<ScannedFile>, fs: Files, n: nat): seq<Line>
    requires n <= |files|
  {
    if n == 0 then [] else LinesUpTo(files, fs, n - 1) + LinesOf(fs, files[n - 1])
  }

  function AllLines(files: seq<ScannedFile>, fs: Files): seq<Line> { LinesUpTo(files, fs, |files|) }

  /** Deduplicated over all files at once. */
  function FoundRows(files: seq<ScannedFile>, fs: Files): seq<UsageRow> { UsageRows(AllLines(files, fs)) }

  function OwnersUpTo(files: seq<ScannedFile>, fs: Files, n: nat): map<string, ScannedFile>
    requires n <= |files|
  {
    if n == 0 then map[]
    else
      var before, last := OwnersUpTo(files, fs, n - 1), files[n - 1];
      map id | id in before.Keys + UsageIds(LinesOf(fs, last)) :: if id in before then before[id] else last
  }

  function Owners(files: seq<ScannedFile>, fs: Files): map<string, ScannedFile> { OwnersUpTo(files, fs, |files|) }

  lemma {:induction false} OwnersOwnAll(files: seq<ScannedFile>, fs: Files, n: nat)
    requires n <= |files|
    ensures OwnersUpTo(files, fs, n).Keys == UsageIds(LinesUpTo(files, fs, n))
  {
    if n > 0 {
      OwnersOwnAll(files, fs, n - 1);
      UsageIdsSplit(LinesUpTo(files, fs, n - 1), LinesOf(fs, files[n - 1]));
    }
  }

  lemma OneMoreRow(rows: seq<UsageRow>, seen: set<string>, j: nat)
    requires DistinctIds(rows) && j < |rows|
    ensures RowIds(rows[..j + 1]) == RowIds(rows[..j]) + {rows[j].messageId}
    ensures rows[j].messageId !in RowIds(rows[..j])
    ensures DropSeen(rows[..j + 1], seen) ==
            DropSeen(rows[..j], seen) + if rows[j].messageId in seen then [] else [rows[j]]
  {
    assert rows[..j + 1] == rows[..j] + [rows[j]];
    DropSeenSnoc(rows[..j], rows[j], seen);
  }

  ghost predicate Credited(owners: map<string, ScannedFile>, ids: set<string>, before: map<string, ScannedFile>,
                           f: ScannedFile)
  {
    && owners.Keys == ids
    && forall id :: id in ids ==> owners[id] == if id in before then before[id] else f
  }

  lemma CreditedOnce(a: map<string, ScannedFile>, b: map<string, ScannedFile>, ids: set<string>,
                     before: map<string, ScannedFile>, f: ScannedFile)
    requires Credited(a, ids, before, f) && Credited(b, ids, before, f)
    ensures a == b
  {}

  /** The loop over one file's rows: rows with a new id are appended and credited to the file. */
  method AddFileRows(file: ScannedFile, rows: seq<UsageRow>, seen: set<string>, allRows: seq<UsageRow>,
                     owners: map<string, ScannedFile>)
    returns (seen': set<string>, allRows': seq<UsageRow>, owners': map<string, ScannedFile>)
    requires DistinctIds(rows) && owners.Keys == seen
    ensures seen' == seen + RowIds(rows) && allRows' == allRows + DropSeen(rows, seen)
    ensures Credited(owners', seen', owners, file)
  {
    seen', allRows', owners' := seen, allRows, owners;
    assert rows[..0] == [];
    for j := 0 to |rows|
      invariant Added(rows[..j], seen, allRows, owners, file, seen', allRows', owners')
    {
      AddOne(rows, j, seen, allRows, owners, file, seen', allRows', owners');
      if rows[j].messageId in seen' { continue; }
      seen' := seen' + {rows[j].messageId};
      owners' := owners'[rows[j].messageId := file];
      allRows' := allRows' + [rows[j]];
    }
    assert rows[..|rows|] == rows;
  }

  /** Where the loop stands once `rows` are done. */
  ghost predicate Added(rows: seq<UsageRow>, seen: set<string>, allRows: seq<UsageRow>,
                        owners: map<string, ScannedFile>,
                        file: ScannedFile, seen': set<string>, allRows': seq<UsageRow>, owners': map<string, ScannedFile>) {
    && seen' == seen + RowIds(rows) && allRows' == allRows + DropSeen(rows, seen)
    && Credited(owners', seen', owners, file)
  }

  lemma AddOne(rows: seq<UsageRow>, j: nat, seen: set<string>, allRows: seq<UsageRow>, owners: map<string, ScannedFile>,
               file: ScannedFile, seen': set<string>, allRows': seq<UsageRow>, owners': map<string, ScannedFile>)
    requires DistinctIds(rows) && owners.Keys == seen && j < |rows|
    requires Added(rows[..j], seen, allRows, owners, file, seen', allRows', owners')
    ensures var r := rows[j];
            if r.messageId in seen' then Added(rows[..j + 1], seen, allRows, owners, file, seen', allRows', owners')
            else Added(rows[..j + 1], seen, allRows, owners, file,
                       seen' + {r.messageId}, allRows' + [r], owners'[r.messageId := file])
  {
    OneMoreRow(rows, seen, j);
    var id, kept, ids := rows[j].messageId, DropSeen(rows[..j], seen), RowIds(rows[..j]);
    MoreSeen(seen, ids, id);
    if id in seen' {
      assert kept + [] == kept;
    } else {
      MoreKept(allRows, kept, rows[j]);
      CreditOneMore(owners', seen', owners, file, id);
    }
  }

  lemma MoreSeen(seen: set<string>, ids: set<string>, id: string)
    requires id !in ids
    ensures seen + (ids + {id}) == (seen + ids) + {id}
    ensures id in seen + ids <==> id in seen
    ensures id in seen + ids ==> seen + (ids + {id}) == seen + ids
  {}

  lemma MoreKept(allRows: seq<UsageRow>, kept: seq<UsageRow>, row: UsageRow)
    ensures allRows + (kept + [row]) == (allRows + kept) + [row]
  {}

  lemma CreditOneMore(owners': map<string, ScannedFile>, ids: set<string>, before: map<string, ScannedFile>,
                      file: ScannedFile, id: string)
    requires Credited(owners', ids, before, file) && id !in ids && id !in before
    ensures Credited(owners'[id := file], ids + {id}, before, file)
  {}

  /** One more file: its deduplicated rows, less the ids already found, are appended, and
      those ids are credited to it. */
  lemma OneMoreFile(files: seq<ScannedFile>, fs: Files, i: nat)
    requires i < |files| && files[i].path in fs
    ensures var before, lines := LinesUpTo(files, fs, i), fs[files[i].path];
            && UsageRows(LinesUpTo(files, fs, i + 1)) == UsageRows(before) + DropSeen(UsageRows(lines), UsageIds(before))
            && UsageIds(LinesUpTo(files, fs, i + 1)) == UsageIds(before) + RowIds(UsageRows(lines))
            && DistinctIds(UsageRows(lines))
            && OwnersUpTo(files, fs, i).Keys == UsageIds(before)
            && Credited(OwnersUpTo(files, fs, i + 1), UsageIds(before) + RowIds(UsageRows(lines)),
                        OwnersUpTo(files, fs, i), files[i])
  {
    var before, lines := LinesUpTo(files, fs, i), fs[files[i].path];
    RowsUnseenSplit(before, lines, {});
    DropSeenIsUnseen(lines, UsageIds(before));
    assert {} + UsageIds(before) == UsageIds(before);
    RowsAreFirstWins(lines, {});
    OwnersOwnAll(files, fs, i);
    UsageIdsSplit(before, lines);
    assert RowIds(UsageRows(lines)) == UsageIds(lines);
  }

  /** What has been gathered once the first `n` files are read. */
  ghost predicate Collected(files: seq<ScannedFile>, fs: Files, n: nat, seen: set<string>, rows: seq<UsageRow>,
                            owners: map<string, ScannedFile>)
    requires n <= |files|
  {
    && rows == UsageRows(LinesUpTo(files, fs, n))
    && seen == UsageIds(LinesUpTo(files, fs, n))
    && owners == OwnersUpTo(files, fs, n)
  }

  method AddFile(files: seq<ScannedFile>, fs: Files, i: nat, seen: set<string>, allRows: seq<UsageRow>,
                 owners: map<string, ScannedFile>)
    returns (seen': set<string>, allRows': seq<UsageRow>, owners': map<string, ScannedFile>)
    requires i < |files| && files[i].path in fs && Collected(files, fs, i, seen, allRows, owners)
    ensures Collected(files, fs, i + 1, seen', allRows', owners')
  {
    var rows := ExtractUsageRows(fs[files[i].path]);
    OneMoreFile(files, fs, i);
    seen', allRows', owners' := AddFileRows(files[i], rows, seen, allRows, owners);
    CreditedOnce(owners', OwnersUpTo(files, fs, i + 1), seen', owners, files[i]);
  }

  method CollectRows(files: seq<ScannedFile>, fs: Files)
    returns (ok: bool, allRows: seq<UsageRow>, owners: map<string, ScannedFile>)
    ensures ok <==> AllReadable(PathsOf(files), fs)
    ensures ok ==> allRows == FoundRows(files, fs) && owners == Owners(files, fs)
  {
    allRows, owners := [], map[];
    var seen: set<string> := {};
    for i := 0 to |files|
      invariant forall k :: 0 <= k < i ==> files[k].path in fs
      invariant Collected(files, fs, i, seen, allRows, owners)
    {
      if files[i].path !in fs {
        assert PathsOf(files)[i] == files[i].path;
        return false, [], map[];
      }
      seen, allRows, owners := AddFile(files, fs, i, seen, allRows, owners);
    }
    ok := true;
  }

  // ---- the batch ----

  const UNKNOWN_ACTOR := "(unknown)"

  function ActorOf(rows: seq<UsageRow>, session: string): string {
    match FirstCwd(rows, session) case Some(cwd) => cwd case None => UNKNOWN_ACTOR
  }

  /** What attribution says about the rows of a run. */
  datatype Attribution = Attribution(install: string, paths: map<string, string>, rows: seq<UsageRow>,
                                     owners: map<string, ScannedFile>)

  predicate Covers(a: Attribution, row: UsageRow) { row.sessionId in a.paths && row.messageId in a.owners }

  function OwnerOf(a: Attribution, r: UsageRow): ScannedFile
    requires Covers(a, r)
  { a.owners[r.messageId] }

  function EventOf(a: Attribution, r: UsageRow): IngestEvent
    requires Covers(a, r)
  {
    IngestEvent(r.messageId, r.sessionId, ActorOf(a.rows, r.sessionId), a.paths[r.sessionId], a.install, r.model,
                OwnerOf(a, r).scanRoot, r.tokens, r.timestamp)
  }

  function EventsOf(a: Attribution, rows: seq<UsageRow>): seq<IngestEvent>
    requires forall r :: r in rows ==> Covers(a, r)
  {
    seq(|rows|, i requires 0 <= i < |rows| => EventOf(a, rows[i]))
  }

  /** The report of every scan root an event was found under; a later row wins. */
  function ReportsOf(a: Attribution, rows: seq<UsageRow>): map<string, ScanRootReport>
    requires forall r :: r in rows ==> Covers(a, r)
  {
    if rows == [] then map[]
    else
      var sf := OwnerOf(a, rows[|rows| - 1]);
      ReportsOf(a, rows[..|rows| - 1])[sf.scanRoot := ScanRootReport(sf.scanRoot, sf.name, sf.sourceType)]
  }

  lemma {:induction false} ReportsName(a: Attribution, rows: seq<UsageRow>)
    requires forall r :: r in rows ==> Covers(a, r)
    ensures forall p :: p in ReportsOf(a, rows) ==> ReportsOf(a, rows)[p].path == p
    ensures forall r :: r in rows ==> OwnerOf(a, r).scanRoot in ReportsOf(a, rows)
  {
    if rows != [] {
      var n := |rows| - 1;
      ReportsName(a, rows[..n]);
      assert rows == rows[..n] + [rows[n]];
    }
  }

  ghost predicate SortedReports(reports: map<string, ScanRootReport>, out: seq<ScanRootReport>) {
    && (forall i, j :: 0 <= i < j < |out| ==> Less(out[i].path, out[j].path))
    && (forall rep :: rep in out <==> exists p :: p in reports && reports[p] == rep)
  }

  /** sort.Slice by path. */
  method SortReports(reports: map<string, ScanRootReport>) returns (out: seq<ScanRootReport>)
    requires forall p :: p in reports ==> reports[p].path == p
    ensures SortedReports(reports, out)
  {
    out := [];
    var todo := reports.Keys;
    while todo != {}
      invariant todo <= reports.Keys
      invariant forall i, j :: 0 <= i < j < |out| ==> Less(out[i].path, out[j].path)
      invariant forall i, p :: 0 <= i < |out| && p in todo ==> Less(out[i].path, p)
      invariant forall rep :: rep in out <==> exists p :: p in reports.Keys - todo && reports[p] == rep
      decreases todo
    {
      var least :| least in todo;
      var rest := todo - {least};
      while rest != {}
        invariant rest <= todo && least in todo && least !in rest
        invariant forall p :: p in todo - rest && p != least ==> Less(least, p)
        decreases rest
      {
        var p :| p in rest;
        LessTotal(p, least);
        if Less(p, least) {
          forall q | q in todo - rest && q != least ensures Less(p, q) { LessTransitive(p, least, q); }
          least := p;
        }
        rest := rest - {p};
      }
      out := out + [reports[least]];
      todo := todo - {least};
    }
  }

  /** The rows a run sends: found, and not yet recorded as sent. */
  ghost function NewRows(fs: Files, files: seq<ScannedFile>, sent: set<string>): seq<UsageRow> {
    DropSeen(FoundRows(files, fs), sent)
  }

  ghost function AttributionOf(env: Env, install: string, fs: Files, files: seq<ScannedFile>,
                               votes: VoteTable): Attribution
  {
    var rows := FoundRows(files, fs);
    Attribution(install, PathsFor(env, votes, rows), rows, Owners(files, fs))
  }

  lemma {:induction false} DropSeenIds(rows: seq<UsageRow>, seen: set<string>)
    ensures forall r :: r in DropSeen(rows, seen) <==> r in rows && r.messageId !in seen
  {
    if rows != [] {
      DropSeenIds(rows[..|rows| - 1], seen);
      assert rows == rows[..|rows| - 1] + [rows[|rows| - 1]];
    }
  }

  /** Every found row has a session path and an owning file. */
  lemma FoundAreCovered(env: Env, install: string, fs: Files, files: seq<ScannedFile>, votes: VoteTable,
                        sent: set<string>)
    ensures forall r :: r in NewRows(fs, files, sent) ==> Covers(AttributionOf(env, install, fs, files, votes), r)
  {
    RowsAreFirstWins(AllLines(files, fs), {});
    OwnersOwnAll(files, fs, |files|);
    DropSeenIds(FoundRows(files, fs), sent);
    var rows := FoundRows(files, fs);
    assert forall r :: r in rows ==> r.messageId in RowIds(rows);
  }

  /** `req` is the batch a run posts when it finds unsent rows. */
  ghost predicate IsBatch(env: Env, install: string, hostname: string, fs: Files, files: seq<ScannedFile>,
                          votes: VoteTable, sent: set<string>, req: Request)
  {
    FoundAreCovered(env, install, fs, files, votes, sent);
    var a, rows := AttributionOf(env, install, fs, files, votes), NewRows(fs, files, sent);
    && req.installId == install && req.hostname == hostname
    && req.events == EventsOf(a, rows)
    && SortedReports(ReportsOf(a, rows), req.scanRoots)
  }

  lemma EventsCorrespond(a: Attribution, rows: seq<UsageRow>, e: IngestEvent)
    requires forall r :: r in rows ==> Covers(a, r)
    ensures e in EventsOf(a, rows) <==> exists r :: r in rows && e == EventOf(a, r)
  {
    if e in EventsOf(a, rows) {
      var i :| 0 <= i < |rows| && EventsOf(a, rows)[i] == e;
      assert rows[i] in rows;
    }
    if r :| r in rows && e == EventOf(a, r) {
      var i :| 0 <= i < |rows| && rows[i] == r;
      assert EventsOf(a, rows)[i] == e;
    }
  }

  /** A batch names one machine and reports every scan root it uses. */
  lemma BatchIsCollectorMade(env: Env, install: string, hostname: string, fs: Files, files: seq<ScannedFile>,
                             votes: VoteTable, sent: set<string>, req: Request)
    requires IsBatch(env, install, hostname, fs, files, votes, sent, req)
    ensures CollectorMade(req)
  {
    FoundAreCovered(env, install, fs, files, votes, sent);
    var a, rows := AttributionOf(env, install, fs, files, votes), NewRows(fs, files, sent);
    ReportsName(a, rows);
    forall e | e in req.events
      ensures e.machine == req.installId && exists rep :: rep in req.scanRoots && rep.path == e.scanRoot
    {
      EventsCorrespond(a, rows, e);
      assert ReportsOf(a, rows)[e.scanRoot] in req.scanRoots;
    }
  }

  /** A batch carries exactly the ids found and not sent, and copies each event's figures
      from the first line that carries its id. */
  lemma BatchCarries(env: Env, install: string, hostname: string, fs: Files, files: seq<ScannedFile>,
                     votes: VoteTable, sent: set<string>, req: Request)
    requires IsBatch(env, install, hostname, fs, files, votes, sent, req)
    ensures EventIds(req.events) == UsageIds(AllLines(files, fs)) - sent
    ensures forall e :: e in req.events ==>
              exists row :: FromFirstLine(AllLines(files, fs), row) && e.id == row.messageId && e.model == row.model
                         && e.tokens == row.tokens && e.timestamp == row.timestamp
  {
    FoundAreCovered(env, install, fs, files, votes, sent);
    var a, rows := AttributionOf(env, install, fs, files, votes), NewRows(fs, files, sent);
    var found := FoundRows(files, fs);
    RowsAreFirstWins(AllLines(files, fs), {});
    DropSeenIds(found, sent);
    forall e | e in req.events
      ensures e.id in RowIds(found) && e.id !in sent
      ensures exists row :: FromFirstLine(AllLines(files, fs), row) && e.id == row.messageId && e.model == row.model
                         && e.tokens == row.tokens && e.timestamp == row.timestamp
    {
      EventsCorrespond(a, rows, e);
    }
    var carried := EventIds(req.events);
    forall id | id in RowIds(found) - sent ensures id in carried {
      var r :| r in found && r.messageId == id;
      EventsCorrespond(a, rows, EventOf(a, r));
      assert EventOf(a, r).id == id;
    }
    assert RowIds(found) == UsageIds(AllLines(files, fs)) - {};
  }

  // ---- what each event says ----

  ghost predicate FileCarries(fs: Files, f: ScannedFile, id: string) {
    f.path in fs && exists l :: l in fs[f.path] && Carries(l, id)
  }

  /** The first of the scanned files that carries the id. */
  ghost predicate FirstCarrier(files: seq<ScannedFile>, fs: Files, id: string, k: int) {
    0 <= k < |files| && FileCarries(fs, files[k], id) && forall j :: 0 <= j < k ==> !FileCarries(fs, files[j], id)
  }

  lemma FileIds(fs: Files, f: ScannedFile, id: string)
    ensures id in UsageIds(LinesOf(fs, f)) <==> FileCarries(fs, f, id)
  {
    if l :| l in LinesOf(fs, f) && IsUsage(l) && UsageId(l) == id { assert Carries(l, id); }
    if FileCarries(fs, f, id) {
      var l :| l in fs[f.path] && Carries(l, id);
      assert IsUsage(l) && UsageId(l) == id;
    }
  }

  /** An id is credited to the first file that carries it. */
  lemma {:induction false} OwnersAreFirst(files: seq<ScannedFile>, fs: Files, n: nat, id: string)
    requires n <= |files|
    ensures id in OwnersUpTo(files, fs, n) ==>
              exists k :: k < n && FirstCarrier(files, fs, id, k) && OwnersUpTo(files, fs, n)[id] == files[k]
    ensures id !in OwnersUpTo(files, fs, n) ==> forall j :: 0 <= j < n ==> !FileCarries(fs, files[j], id)
  {
    if n > 0 {
      OwnersAreFirst(files, fs, n - 1, id);
      FileIds(fs, files[n - 1], id);
      if id in OwnersUpTo(files, fs, n) && id !in OwnersUpTo(files, fs, n - 1) { assert FirstCarrier(files, fs, id, n - 1); }
    }
  }

  /** Where a session's events say they come from: the first cwd of its rows is the actor, and
      the path is what the votes and that cwd make of it. */
  ghost predicate TrueOrigin(env: Env, rows: seq<UsageRow>, votes: VoteTable, e: IngestEvent) {
    exists cwd ::
      && IsFirstCwd(rows, e.sessionId, cwd)
      && e.actor == (if cwd.Some? then cwd.value else "(unknown)")
      && Attributed(env, VoteCountsOf(votes, e.sessionId), cwd, e.path)
  }

  /** The event copies the row of its id. */
  predicate CopiesRow(e: IngestEvent, row: UsageRow) {
    && e.id == row.messageId && e.sessionId == row.sessionId && e.model == row.model && e.tokens == row.tokens
    && e.timestamp == row.timestamp
  }

  /** Field by field, what a batch may say in an event. */
  ghost predicate TrueEvent(env: Env, install: string, fs: Files, files: seq<ScannedFile>, votes: VoteTable,
                            e: IngestEvent)
  {
    var rows := FoundRows(files, fs);
    && e.machine == install
    && (exists row :: row in rows && CopiesRow(e, row))
    && e.sessionId in PathsFor(env, votes, rows) && e.path == PathsFor(env, votes, rows)[e.sessionId]
    && TrueOrigin(env, rows, votes, e)
    && exists k :: FirstCarrier(files, fs, e.id, k) && e.scanRoot == files[k].scanRoot
  }

  lemma OriginIsTrue(env: Env, rows: seq<UsageRow>, votes: VoteTable, row: UsageRow, e: IngestEvent)
    requires row in rows && e.sessionId == row.sessionId && e.path == PathsFor(env, votes, rows)[row.sessionId]
    requires e.actor == ActorOf(rows, row.sessionId)
    ensures TrueOrigin(env, rows, votes, e)
  {
    var s := row.sessionId;
    FirstCwdExactly(rows, s);
    PathIsAttributed(env, VoteCountsOf(votes, s), FirstCwd(rows, s));
  }

  /** Every event of a batch is true to the transcripts, field by field. */
  lemma BatchIsTrue(env: Env, install: string, hostname: string, fs: Files, files: seq<ScannedFile>,
                    votes: VoteTable, sent: set<string>, req: Request, e: IngestEvent)
    requires IsBatch(env, install, hostname, fs, files, votes, sent, req) && e in req.events
    ensures TrueEvent(env, install, fs, files, votes, e)
  {
    FoundAreCovered(env, install, fs, files, votes, sent);
    var a, rows, found := AttributionOf(env, install, fs, files, votes), NewRows(fs, files, sent), FoundRows(files, fs);
    DropSeenIds(found, sent);
    EventsCorrespond(a, rows, e);
    var row :| row in rows && e == EventOf(a, row);
    assert CopiesRow(e, row);
    OriginIsTrue(env, found, votes, row, e);
    OwnersAreFirst(files, fs, |files|, row.messageId);
  }

  /** Every report names a scanned file's root, name and source type. */
  lemma {:induction false} ReportsAreTrue(a: Attribution, rows: seq<UsageRow>, files: seq<ScannedFile>, p: string)
    requires forall r :: r in rows ==> Covers(a, r)
    requires (forall r :: r in rows ==> OwnerOf(a, r) in files) && p in ReportsOf(a, rows)
    ensures exists f :: f in files && f.scanRoot == p && ReportsOf(a, rows)[p] == ScanRootReport(p, f.name, f.sourceType)
  {
    var n := |rows| - 1;
    assert rows[n] in rows;
    if p != OwnerOf(a, rows[n]).scanRoot { ReportsAreTrue(a, rows[..n], files, p); }
  }

  lemma BatchReports(env: Env, install: string, hostname: string, fs: Files, files: seq<ScannedFile>,
                     votes: VoteTable, sent: set<string>, req: Request, rep: ScanRootReport)
    requires IsBatch(env, install, hostname, fs, files, votes, sent, req) && rep in req.scanRoots
    ensures exists f :: f in files && rep == ScanRootReport(f.scanRoot, f.name, f.sourceType)
  {
    FoundAreCovered(env, install, fs, files, votes, sent);
    var a, rows := AttributionOf(env, install, fs, files, votes), NewRows(fs, files, sent);
    var p :| p in ReportsOf(a, rows) && ReportsOf(a, rows)[p] == rep;
    forall r | r in rows ensures OwnerOf(a, r) in files { OwnersAreFirst(files, fs, |files|, r.messageId); }
    ReportsAreTrue(a, rows, files, p);
  }

  // ---- one run ----

  function EstimatedCost(rows: seq<UsageRow>): int {
    if rows == [] then 0
    else EstimatedCost(rows[..|rows| - 1]) + CostForUsage(rows[|rows| - 1].model, rows[|rows| - 1].tokens)
  }

  /** The local estimate is what the server will charge for the same events. */
  lemma {:induction false} EstimateIsCharged(a: Attribution, rows: seq<UsageRow>)
    requires forall r :: r in rows ==> Covers(a, r)
    ensures EstimatedCost(rows) == Charged(EventsOf(a, rows))
  {
    if rows != [] {
      var n := |rows| - 1;
      EstimateIsCharged(a, rows[..n]);
      assert EventsOf(a, rows)[..n] == EventsOf(a, rows[..n]);
    }
  }

  /** The costs the ledger stores for a batch. */
  function Charged(events: seq<IngestEvent>): int {
    if events == [] then 0 else Charged(events[..|events| - 1]) + Priced(events[|events| - 1]).cost
  }

  ghost predicate Built(a: Attribution, rows: seq<UsageRow>, events: seq<IngestEvent>,
                        reports: map<string, ScanRootReport>, cost: int)
  {
    && (forall r :: r in rows ==> Covers(a, r))
    && events == EventsOf(a, rows) && reports == ReportsOf(a, rows) && cost == EstimatedCost(rows)
  }

  lemma BuildOne(a: Attribution, rows: seq<UsageRow>, i: nat, events: seq<IngestEvent>,
                 reports: map<string, ScanRootReport>, cost: int)
    requires i < |rows| && (forall r :: r in rows ==> Covers(a, r)) && Built(a, rows[..i], events, reports, cost)
    ensures Covers(a, rows[i])
    ensures var r, sf := rows[i], OwnerOf(a, rows[i]);
            Built(a, rows[..i + 1], events + [EventOf(a, r)],
                  reports[sf.scanRoot := ScanRootReport(sf.scanRoot, sf.name, sf.sourceType)], cost + CostForUsage(r.model, r.tokens))
  {
    assert rows[..i + 1][..i] == rows[..i] && rows[..i + 1][i] == rows[i];
    assert forall r :: r in rows[..i + 1] ==> r in rows;
    assert EventsOf(a, rows[..i + 1]) == EventsOf(a, rows[..i]) + [EventOf(a, rows[i])];
  }

  /** The loop over the new rows: events, scan-root reports and the local estimate. The
      actor of a session is looked up once. */
  method BuildEvents(a: Attribution, rows: seq<UsageRow>)
    returns (events: seq<IngestEvent>, reports: map<string, ScanRootReport>, cost: int)
    requires forall r :: r in rows ==> Covers(a, r)
    ensures events == EventsOf(a, rows) && reports == ReportsOf(a, rows) && cost == EstimatedCost(rows)
  {
    events, reports, cost := [], map[], 0;
    var actorBySession: map<string, string> := map[];
    assert rows[..0] == [];
    for i := 0 to |rows|
      invariant Built(a, rows[..i], events, reports, cost)
      invariant forall s :: s in actorBySession ==> actorBySession[s] == ActorOf(a.rows, s)
    {
      var r := rows[i];
      BuildOne(a, rows, i, events, reports, cost);
      var sf := a.owners[r.messageId];
      if r.sessionId !in actorBySession {
        var cwd, ok := FirstCwdBearingRow(a.rows, r.sessionId);
        actorBySession := actorBySession[r.sessionId := if ok then cwd else UNKNOWN_ACTOR];
      }
      events := events + [IngestEvent(r.messageId, r.sessionId, actorBySession[r.sessionId], a.paths[r.sessionId], a.install,
                                      r.model, sf.scanRoot, r.tokens, r.timestamp)];
      reports := reports[sf.scanRoot := ScanRootReport(sf.scanRoot, sf.name, sf.sourceType)];
      cost := cost + CostForUsage(r.model, r.tokens);
    }
    assert rows[..|rows|] == rows;
  }

  datatype RunResult = RunResult(filesScanned: nat, totalRowsFound: nat, newRowsFound: nat, received: nat, inserted: nat,
                                 estimatedCost: int, ok: bool)

  /** What becomes of a post: the request never arrives, or the server handles it (with
      some fault, or none) and the answer may still be lost. */
  datatype PostFate = RequestLost | Reached(authenticated: bool, now: int, fault: Fault, answerLost: bool)

  /** Writing the sent-id file may be cut off before it starts or while it is underway. */
  datatype SaveFate = SaveDone | SaveNotStarted | SaveTorn

  function ServerAfter(t: Tables, req: Request, fate: PostFate): (Tables, Response) {
    if fate.RequestLost? then (t, ServerError)
    else if !fate.authenticated then (t, Unauthorized)
    else Ingest(t, req, fate.now, fate.fault)
  }

  predicate PostSucceeds(t: Tables, req: Request, fate: PostFate) {
    fate.Reached? && !fate.answerLost && ServerAfter(t, req, fate).1.Created?
  }

  /** What the sent-id file holds once a batch was posted. Ids are recorded only after a 201
      answer was read. */
  ghost predicate SentFileAfter(sent: SentFile, batch: Request, succeeded: bool, fate: SaveFate, sent': SentFile) {
    if !succeeded || fate.SaveNotStarted? then sent' == sent
    else if fate.SaveTorn? then sent' == Garbled
    else sent'.Saved? && SentIds(sent') == SentIds(sent) + EventIds(batch.events)
  }

  /** What one run does to the local tables, the sent-id file and the server, for every fate
      of its post and of its save. `req` is the batch posted, when there is one. */
  ghost predicate RunEffect(env: Env, install: string, hostname: string, files: Files, scanned: seq<ScannedFile>,
                            fate: PostFate, saveFate: SaveFate, st: Store, sent: SentFile, t: Tables,
                            st': Store, sent': SentFile, t': Tables, ok: bool, req: Option<Request>)
  {
    // an unreadable transcript or sent-id file: nothing happens
    if !AllReadable(PathsOf(scanned), files) || sent.Garbled? then
      !ok && req == None && st' == st && sent' == sent && t' == t
    else
      && st' == ScanRun(env, st, PathsOf(scanned), files)
      && (req.Some? <==> NewRows(files, scanned, SentIds(sent)) != [])
      && match req
         case None => ok && sent' == sent && t' == t
         case Some(batch) =>
           && IsBatch(env, install, hostname, files, scanned, st'.votes, SentIds(sent), batch)
           && t' == ServerAfter(t, batch, fate).0
           && SentFileAfter(sent, batch, PostSucceeds(t, batch, fate), saveFate, sent')
           && (ok <==> PostSucceeds(t, batch, fate) && saveFate.SaveDone?)
  }

  class Install {
    const env: Env
    const installId: string
    const hostname: string
    const store: PathStore
    var files: Files
    var sentFile: SentFile

    constructor (env: Env, installId: string, hostname: string, store: PathStore, files: Files)
      ensures this.env == env && this.installId == installId && this.hostname == hostname && this.store == store
      ensures this.files == files && sentFile == Missing
    {
      this.env, this.installId, this.hostname, this.store := env, installId, hostname, store;
      this.files, sentFile := files, Missing;
    }

    ghost predicate Ready() reads this, store { Agrees(env, store.roots) && OffsetsOk(store.offsets) }

    /** Run. `req` is the batch posted, when there is one. */
    method Run(scanned: seq<ScannedFile>, server: Service, fate: PostFate, saveFate: SaveFate)
      returns (result: RunResult, ghost req: Option<Request>)
      requires Ready()
      modifies this`sentFile, store, server.repo
      ensures Ready()
      ensures RunEffect(env, installId, hostname, files, scanned, fate, saveFate, old(store.State()), old(sentFile),
                        old(server.repo.State()), store.State(), sentFile, server.repo.State(), result.ok, req)
      ensures result.filesScanned == |scanned|
      ensures AllReadable(PathsOf(scanned), files) ==> result.totalRowsFound == |FoundRows(scanned, files)|
      ensures AllReadable(PathsOf(scanned), files) && !old(sentFile).Garbled? ==>
                result.newRowsFound == |NewRows(files, scanned, SentIds(old(sentFile)))|
                && result.estimatedCost == EstimatedCost(NewRows(files, scanned, SentIds(old(sentFile))))
      ensures req.Some? && PostSucceeds(old(server.repo.State()), req.value, fate) ==>
                Created(result.received, result.inserted) == ServerAfter(old(server.repo.State()), req.value, fate).1
    {
      req := None;
      result := RunResult(|scanned|, 0, 0, 0, 0, 0, false);
      var readable, allRows, owners := CollectRows(scanned, files);
      if !readable { return; }
      result := result.(totalRowsFound := |allRows|);
      var state := LoadSentState(sentFile);
      if state == null { return; }
      var newRows := state.FilterUnsent(allRows);
      result := result.(newRowsFound := |newRows|);
      var paths, looked := ScanSessionPaths(env, PathsOf(scanned), files, allRows, store);
      if paths.None? { return; }
      var a := Attribution(installId, paths.value, allRows, owners);
      FoundAreCovered(env, installId, files, scanned, store.votes, SentIds(sentFile));
      assert a == AttributionOf(env, installId, files, scanned, store.votes);
      assert newRows == NewRows(files, scanned, SentIds(sentFile));
      var events, reports, cost := BuildEvents(a, newRows);
      result := result.(estimatedCost := cost);
      if |events| == 0 {
        result := result.(ok := true);
        return;
      }
      ReportsName(a, newRows);
      var scanRoots := SortReports(reports);
      var posted := Request(installId, hostname, scanRoots, events);
      req := Some(posted);
      result, sentFile := Post(posted, result, state, sentFile, server, fate, saveFate);
    }

    /** Posting the batch and recording its ids. */
    method Post(posted: Request, sofar: RunResult, state: SentState, sent: SentFile, server: Service, fate: PostFate,
                saveFate: SaveFate)
      returns (result: RunResult, sent': SentFile)
      requires !sofar.ok && state.sentIds == SentIds(sent)
      modifies state, server.repo
      ensures server.repo.State() == ServerAfter(old(server.repo.State()), posted, fate).0
      ensures SentFileAfter(sent, posted, PostSucceeds(old(server.repo.State()), posted, fate), saveFate, sent')
      ensures result.ok <==> PostSucceeds(old(server.repo.State()), posted, fate) && saveFate.SaveDone?
      ensures result == sofar.(ok := result.ok, received := result.received, inserted := result.inserted)
      ensures PostSucceeds(old(server.repo.State()), posted, fate) ==>
                Created(result.received, result.inserted) == ServerAfter(old(server.repo.State()), posted, fate).1
    {
      result, sent' := sofar, sent;
      if fate.RequestLost? { return; }
      var resp := server.IngestUsageEventsBatch(fate.authenticated, posted, fate.now, fate.fault);
      if fate.answerLost || !resp.Created? { return; }
      result := result.(received := resp.received, inserted := resp.inserted);
      state.MarkAllSent(posted.events);
      match saveFate
      case SaveNotStarted =>
      case SaveTorn => sent' := Garbled;
      case SaveDone =>
        sent' := state.Save();
        result := result.(ok := true);
    }
  }
}
