/** The collector's local tables and one incremental pass over the transcript files
    (internal/collector/pathstore.go, scanSessionPaths in internal/collector/collector.go). */
module PathStores {
  import opened Basics
  import opened Transcript
  import opened GitRoots

  type Files = map<string, seq<Line>>
  type VoteTable = map<string, map<string, int>>
  type OffsetTable = map<(string, string), int>

  /** git_root_cache; session_path_votes, the counts of each session by root;
      session_scan_progress by (session, file). */
  datatype Store = Store(roots: map<string, string>, votes: VoteTable, offsets: OffsetTable)

  const EMPTY_STORE := Store(map[], map[], map[])

  function At(counts: map<string, int>, root: string): int {
    if root in counts then counts[root] else 0
  }

  function VoteCountsOf(votes: VoteTable, session: string): map<string, int> {
    if session in votes then votes[session] else map[]
  }

  function Offset(offsets: OffsetTable, session: string, file: string): int {
    if (session, file) in offsets then offsets[(session, file)] else 0
  }

  function NonZero(deltas: map<string, int>): map<string, int> {
    map root | root in deltas && deltas[root] != 0 :: deltas[root]
  }

  function AddCounts(counts: map<string, int>, deltas: map<string, int>): map<string, int> {
    map root | root in counts.Keys + deltas.Keys :: At(counts, root) + At(deltas, root)
  }

  function AddVotesTo(votes: VoteTable, session: string, deltas: map<string, int>): VoteTable {
    if NonZero(deltas) == map[] then votes
    else votes[session := AddCounts(VoteCountsOf(votes, session), NonZero(deltas))]
  }

  lemma AddNothing(votes: VoteTable, session: string)
    ensures AddVotesTo(votes, session, map[]) == votes
  {}

  class PathStore {
    var roots: map<string, string>
    var votes: VoteTable
    var offsets: OffsetTable

    ghost function State(): Store reads this { Store(roots, votes, offsets) }

    constructor ()
      ensures State() == EMPTY_STORE
    {
      roots, votes, offsets := map[], map[], map[];
    }

    method SaveGitRoots(snapshot: map<string, string>)
      modifies this
      ensures State() == old(State()).(roots := old(roots) + snapshot)
    {
      roots := roots + snapshot;
    }

    method AddVotes(session: string, deltas: map<string, int>)
      modifies this
      ensures State() == old(State()).(votes := AddVotesTo(old(votes), session, deltas))
    {
      var nonZero := NonZero(deltas);
      if nonZero == map[] { return; }
      var before := VoteCountsOf(votes, session);
      var counts := before;
      var todo := nonZero.Keys;
      while todo != {}
        invariant todo <= nonZero.Keys
        invariant counts == AddCounts(before, map root | root in nonZero.Keys - todo :: nonZero[root])
        decreases todo
      {
        var root :| root in todo;
        counts := counts[root := At(counts, root) + nonZero[root]];
        todo := todo - {root};
      }
      assert (map root | root in nonZero.Keys - todo :: nonZero[root]) == nonZero;
      votes := votes[session := counts];
    }

    method VoteCounts(session: string) returns (counts: map<string, int>)
      ensures counts == VoteCountsOf(votes, session)
    {
      counts := VoteCountsOf(votes, session);
    }

    method ScanOffset(session: string, file: string) returns (offset: int)
      ensures offset == Offset(offsets, session, file)
    {
      offset := Offset(offsets, session, file);
    }

    method SetScanOffset(session: string, file: string, offset: int)
      modifies this
      ensures State() == old(State()).(offsets := old(offsets)[(session, file) := offset])
    {
      offsets := offsets[(session, file) := offset];
    }
  }

  // ---- one incremental pass, as a function of the tables ----

  datatype Scan = Scan(votes: VoteTable, offsets: OffsetTable, cache: Cache)

  function StartLine(offsets: OffsetTable, session: string, file: string, lines: seq<Line>): int {
    var stored := Offset(offsets, session, file);
    if stored > |lines| then |lines| else stored
  }

  /** No stored offset is negative. */
  ghost predicate OffsetsOk(offsets: OffsetTable) { forall key :: key in offsets ==> offsets[key] >= 0 }

  function NewTouched(offsets: OffsetTable, session: string, file: string, lines: seq<Line>): seq<string> {
    var start := StartLine(offsets, session, file, lines);
    if start < 0 then [] else TouchedPaths(lines[start..])
  }

  /** The first of the two commits for a file: its new votes, offset not yet moved. */
  function CountFile(env: Env, sc: Scan, file: string, lines: seq<Line>): Scan {
    match FirstSessionId(lines)
    case None => sc
    case Some(session) =>
      var touched := NewTouched(sc.offsets, session, file, lines);
      sc.(votes := AddVotesTo(sc.votes, session, Tally(env, touched)),
          cache := LookupAll(env, sc.cache, DirsOf(env, touched)))
  }

  function ScanFile(env: Env, sc: Scan, file: string, lines: seq<Line>): Scan {
    match FirstSessionId(lines)
    case None => sc
    case Some(session) =>
      CountFile(env, sc, file, lines).(offsets := sc.offsets[(session, file) := |lines|])
  }

  /** Files are scanned in order; one that cannot be read ends the pass. */
  function ScanFiles(env: Env, sc: Scan, files: seq<string>, fs: Files): Scan
    decreases |files|
  {
    if files == [] || files[0] !in fs then sc
    else ScanFiles(env, ScanFile(env, sc, files[0], fs[files[0]]), files[1..], fs)
  }

  function Begin(st: Store): Scan { Scan(st.votes, st.offsets, Cache(st.roots, [])) }

  ghost predicate AllReadable(files: seq<string>, fs: Files) { forall f :: f in files ==> f in fs }

  /** The tables after scanSessionPaths has gone through `files`. */
  ghost function ScanRun(env: Env, st: Store, files: seq<string>, fs: Files): Store {
    var sc := ScanFiles(env, Begin(st), files, fs);
    Store(if AllReadable(files, fs) then st.roots + sc.cache.entries else st.roots, sc.votes, sc.offsets)
  }

  ghost function PathsFor(env: Env, votes: VoteTable, rows: seq<UsageRow>): map<string, string> {
    var sessions := set r | r in rows :: r.sessionId;
    map s | s in sessions :: PathFromVotes(env, VoteCountsOf(votes, s), FirstCwd(rows, s))
  }

  /** The directories the tally of a file's new lines looks up. */
  function DirsFor(env: Env, offsets: OffsetTable, file: string, lines: seq<Line>): seq<string> {
    match FirstSessionId(lines)
    case None => []
    case Some(session) => DirsOf(env, NewTouched(offsets, session, file, lines))
  }

  lemma NothingNew(env: Env)
    ensures Tally(env, []) == map[] && DirsOf(env, []) == []
  {}

  /** Scanning a file: the body of the loop over files. */
  method ScanOneFile(env: Env, file: string, lines: seq<Line>, store: PathStore, cache: GitRootCache)
    requires cache.Valid() && cache.env == env && OffsetsOk(store.offsets)
    modifies store, cache
    ensures cache.Valid() && OffsetsOk(store.offsets) && store.roots == old(store.roots)
    ensures Scan(store.votes, store.offsets, cache.State()) ==
            ScanFile(env, old(Scan(store.votes, store.offsets, cache.State())), file, lines)
  {
    var session := FirstSessionId(lines);
    if session.None? { return; }
    var start := store.ScanOffset(session.value, file);
    if start > |lines| { start := |lines|; }
    AddNothing(store.votes, session.value);
    NothingNew(env);
    if start < |lines| {
      var touched := ExtractTouchedPaths(lines[start..]);
      if |touched| > 0 {
        var counts := TallyGitRoots(touched, cache);
        if |counts| > 0 {
          store.AddVotes(session.value, counts);
        } else {
          assert counts == map[];
        }
      }
    } else {
      assert lines[start..] == [];
    }
    store.SetScanOffset(session.value, file, |lines|);
  }

  /** The loop over files of scanSessionPaths. `dirs` lists the directories looked up. */
  method ScanAllFiles(env: Env, files: seq<string>, fs: Files, store: PathStore, cache: GitRootCache)
    returns (ok: bool, ghost dirs: seq<string>)
    requires cache.Valid() && cache.env == env && OffsetsOk(store.offsets)
    modifies store, cache
    ensures cache.Valid() && OffsetsOk(store.offsets) && store.roots == old(store.roots)
    ensures Scan(store.votes, store.offsets, cache.State()) ==
            ScanFiles(env, old(Scan(store.votes, store.offsets, cache.State())), files, fs)
    ensures ok <==> AllReadable(files, fs)
    ensures cache.State() == LookupAll(env, old(cache.State()), dirs)
  {
    dirs := [];
    for i := 0 to |files|
      invariant cache.Valid() && OffsetsOk(store.offsets) && store.roots == old(store.roots)
      invariant forall f :: f in files[..i] ==> f in fs
      invariant ScanFiles(env, Scan(store.votes, store.offsets, cache.State()), files[i..], fs) ==
                ScanFiles(env, old(Scan(store.votes, store.offsets, cache.State())), files, fs)
      invariant cache.State() == LookupAll(env, old(cache.State()), dirs)
    {
      assert files[i..][0] == files[i] && files[i..][1..] == files[i + 1..];
      if files[i] !in fs {
        return false, dirs;
      }
      ghost var more := DirsFor(env, store.offsets, files[i], fs[files[i]]);
      LookupAllSplit(env, old(cache.State()), dirs, more);
      ScanOneFile(env, files[i], fs[files[i]], store, cache);
      dirs := dirs + more;
    }
    return true, dirs;
  }

  /** The loop over rows of scanSessionPaths: one path a session. */
  method ResolveSessions(env: Env, rows: seq<UsageRow>, store: PathStore, cache: GitRootCache)
    returns (pathBySession: map<string, string>, ghost dirs: seq<string>)
    requires cache.Valid() && cache.env == env
    modifies cache
    ensures cache.Valid() && cache.State() == LookupAll(env, old(cache.State()), dirs)
    ensures pathBySession == PathsFor(env, store.votes, rows)
  {
    pathBySession := map[];
    dirs := [];
    for i := 0 to |rows|
      invariant cache.Valid()
      invariant pathBySession.Keys == set r | r in rows[..i] :: r.sessionId
      invariant forall s :: s in pathBySession ==>
                  pathBySession[s] == PathFromVotes(env, VoteCountsOf(store.votes, s), FirstCwd(rows, s))
      invariant cache.State() == LookupAll(env, old(cache.State()), dirs)
    {
      var session := rows[i].sessionId;
      assert rows[..i + 1] == rows[..i] + [rows[i]];
      if session in pathBySession { continue; }
      var counts := store.VoteCounts(session);
      var cwd, cwdOK := FirstCwdBearingRow(rows, session);
      ghost var more := FallbackDirs(counts, if cwdOK then Some(cwd) else None);
      LookupAllSplit(env, old(cache.State()), dirs, more);
      var path := ResolvePathFromVoteCounts(counts, cwd, cwdOK, cache);
      dirs := dirs + more;
      pathBySession := pathBySession[session := path];
    }
    assert rows[..|rows|] == rows;
  }

  /** scanSessionPaths. `looked` is the cache as the run leaves it, with every directory
      the run passed on to git: none the table already knew, and none that resolves
      more than once. */
  method ScanSessionPaths(env: Env, files: seq<string>, fs: Files, rows: seq<UsageRow>, store: PathStore)
    returns (paths: Option<map<string, string>>, ghost looked: Cache)
    requires Agrees(env, store.roots) && OffsetsOk(store.offsets)
    modifies store
    ensures Agrees(env, store.roots) && OffsetsOk(store.offsets)
    ensures store.State() == ScanRun(env, old(store.State()), files, fs)
    ensures paths == if AllReadable(files, fs) then Some(PathsFor(env, store.votes, rows)) else None
    ensures AskedFresh(env, Cache(old(store.roots), []), looked)
  {
    var cache := new GitRootCache(env);
    cache.Seed(store.roots);
    ghost var start := Begin(store.State()).cache;
    assert map[] + store.roots == store.roots;
    var ok, dirs := ScanAllFiles(env, files, fs, store, cache);
    if !ok {
      LookupsAreFresh(env, start, dirs);
      return None, cache.State();
    }
    store.SaveGitRoots(cache.entries);
    var pathBySession, more := ResolveSessions(env, rows, store, cache);
    LookupAllSplit(env, start, dirs, more);
    LookupsAreFresh(env, start, dirs + more);
    return Some(pathBySession), cache.State();
  }
}
