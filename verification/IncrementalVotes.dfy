/** The incremental vote agrees with the from-scratch vote it speeds up
    (internal/collector/collector.go, internal/collector/path.go, internal/collector/pathstore.go). */
module IncrementalVotes {
  import opened Basics
  import opened Transcript
  import opened GitRoots
  import opened PathStores

  /** Transcripts only ever gain whole lines, and new files may appear. */
  ghost predicate Extends(fs: Files, later: Files) {
    forall f :: f in fs ==> f in later && fs[f] <= later[f]
  }

  /** What every reachable table state keeps: the cache agrees with git, an offset stands
      only for a file's own session and never past its end, and stored counts are positive. */
  ghost predicate Tidy(env: Env, fs: Files, st: Store) {
    && Agrees(env, st.roots)
    && (forall key :: key in st.offsets ==>
         key.1 in fs && FirstSessionId(fs[key.1]) == Some(key.0) && 0 <= st.offsets[key] <= |fs[key.1]|)
    && (forall s, r :: s in st.votes && r in st.votes[s] ==> st.votes[s][r] > 0)
  }

  /** The votes for `root` in the part of `f` that the offsets say session `s` has scanned. */
  ghost function FileVotes(env: Env, fs: Files, offsets: OffsetTable, s: string, root: string): string -> int {
    f => if f in fs && (s, f) in offsets && 0 <= offsets[(s, f)] <= |fs[f]|
         then VotesFor(env, TouchedPaths(fs[f][..offsets[(s, f)]]), root) else 0
  }

  ghost function Scanned(env: Env, fs: Files, offsets: OffsetTable, s: string, root: string): int {
    SumOver(fs.Keys, FileVotes(env, fs, offsets, s, root))
  }

  /** How far a stored count exceeds the votes in the scanned part of the files. */
  ghost function Surplus(env: Env, fs: Files, votes: VoteTable, offsets: OffsetTable, s: string, root: string): int {
    At(VoteCountsOf(votes, s), root) - Scanned(env, fs, offsets, s, root)
  }

  // ---- growth of the files ----

  lemma GrowthKeepsTidy(env: Env, fs: Files, later: Files, st: Store)
    requires Extends(fs, later) && Tidy(env, fs, st)
    ensures Tidy(env, later, st)
  {
    forall key | key in st.offsets
      ensures key.1 in later && FirstSessionId(later[key.1]) == Some(key.0) && st.offsets[key] <= |later[key.1]|
    {
      var f := key.1;
      assert later[f] == fs[f] + later[f][|fs[f]|..];
      SessionStable(fs[f], later[f][|fs[f]|..]);
    }
  }

  lemma GrowthKeepsFile(env: Env, fs: Files, later: Files, st: Store, s: string, root: string, f: string)
    requires Extends(fs, later) && Tidy(env, fs, st)
    ensures FileVotes(env, later, st.offsets, s, root)(f) == FileVotes(env, fs, st.offsets, s, root)(f)
    ensures f !in fs ==> FileVotes(env, later, st.offsets, s, root)(f) == 0
  {
    if (s, f) in st.offsets {
      assert (s, f).1 in fs;
      assert fs[f][..st.offsets[(s, f)]] == later[f][..st.offsets[(s, f)]];
    }
  }

  lemma GrowthKeepsSurplus(env: Env, fs: Files, later: Files, st: Store, s: string, root: string)
    requires Extends(fs, later) && Tidy(env, fs, st)
    ensures Surplus(env, later, st.votes, st.offsets, s, root) == Surplus(env, fs, st.votes, st.offsets, s, root)
  {
    var old_, new_ := FileVotes(env, fs, st.offsets, s, root), FileVotes(env, later, st.offsets, s, root);
    forall f | f in later
      ensures f in fs ==> new_(f) == old_(f)
      ensures f !in fs ==> new_(f) == 0
    {
      GrowthKeepsFile(env, fs, later, st, s, root, f);
    }
    SumCongruent(fs.Keys, old_, new_);
    SumWiden(fs.Keys, later.Keys, new_);
  }

  // ---- one file ----

  /** Tables in the middle of a pass. */
  ghost function Mid(sc: Scan): Store { Store(sc.cache.entries, sc.votes, sc.offsets) }

  /** A count table gains exactly the votes of the newly touched paths. */
  lemma AddTally(env: Env, votes: VoteTable, s: string, touched: seq<string>, session: string, root: string)
    ensures At(VoteCountsOf(AddVotesTo(votes, s, Tally(env, touched)), session), root) ==
            At(VoteCountsOf(votes, session), root) + if session == s then VotesFor(env, touched, root) else 0
  {
    var deltas := Tally(env, touched);
    forall r: string { TallyCounts(env, touched, r); }
    assert NonZero(deltas) == deltas;
    if deltas == map[] { assert root !in deltas; }
  }

  lemma AddTallyPositive(env: Env, votes: VoteTable, s: string, touched: seq<string>)
    requires forall s1, r :: s1 in votes && r in votes[s1] ==> votes[s1][r] > 0
    ensures var after := AddVotesTo(votes, s, Tally(env, touched));
            forall s1, r :: s1 in after && r in after[s1] ==> after[s1][r] > 0
  {
    forall r: string { TallyCounts(env, touched, r); }
    assert NonZero(Tally(env, touched)) == Tally(env, touched);
  }

  lemma CountFileKeepsTidy(env: Env, fs: Files, sc: Scan, f: string)
    requires f in fs && Tidy(env, fs, Mid(sc))
    ensures Tidy(env, fs, Mid(CountFile(env, sc, f, fs[f])))
    ensures Tidy(env, fs, Mid(ScanFile(env, sc, f, fs[f])))
  {
    if s :| FirstSessionId(fs[f]) == Some(s) {
      var touched := NewTouched(sc.offsets, s, f, fs[f]);
      AddTallyPositive(env, sc.votes, s, touched);
      LookupsAreFresh(env, sc.cache, DirsOf(env, touched));
    }
  }

  lemma ScannedGain(env: Env, fs: Files, offsets: OffsetTable, f: string, s: string, session: string, root: string)
    requires f in fs && 0 <= Offset(offsets, s, f) <= |fs[f]|
    ensures Scanned(env, fs, offsets[(s, f) := |fs[f]|], session, root) == Scanned(env, fs, offsets, session, root) +
              if session == s then VotesFor(env, NewTouched(offsets, s, f, fs[f]), root) else 0
  {
    var lines, start := fs[f], Offset(offsets, s, f);
    var before, after := FileVotes(env, fs, offsets, session, root), FileVotes(env, fs, offsets[(s, f) := |fs[f]|], session, root);
    SumUpdateOne(fs.Keys, before, after, f);
    if session == s {
      assert lines == lines[..start] + lines[start..] && lines[..|lines|] == lines && lines[..0] == [];
      TouchedPathsSplit(lines[..start], lines[start..]);
      VotesForSplit(env, TouchedPaths(lines[..start]), TouchedPaths(lines[start..]), root);
    }
  }

  /** Scanning a file moves the stored counts and the scanned votes by the same amount. */
  lemma ScanFileKeepsSurplus(env: Env, fs: Files, sc: Scan, f: string, session: string, root: string)
    requires f in fs && Tidy(env, fs, Mid(sc))
    ensures var after := ScanFile(env, sc, f, fs[f]);
            Surplus(env, fs, after.votes, after.offsets, session, root) ==
            Surplus(env, fs, sc.votes, sc.offsets, session, root)
  {
    if s :| FirstSessionId(fs[f]) == Some(s) {
      var offsets := sc.offsets[(s, f) := |fs[f]|];
      AddTally(env, sc.votes, s, NewTouched(sc.offsets, s, f, fs[f]), session, root);
      ScannedGain(env, fs, sc.offsets, f, s, session, root);
      assert ScanFile(env, sc, f, fs[f]).offsets == offsets;
    }
  }

  /** A stop between the two commits leaves the new votes counted and the offset behind:
      the surplus grows by exactly the votes of the unscanned part. */
  lemma StopGrowsSurplus(env: Env, fs: Files, sc: Scan, f: string, session: string, root: string)
    requires f in fs && Tidy(env, fs, Mid(sc))
    ensures var after := CountFile(env, sc, f, fs[f]);
            Surplus(env, fs, after.votes, after.offsets, session, root) ==
            Surplus(env, fs, sc.votes, sc.offsets, session, root) +
              if FirstSessionId(fs[f]) == Some(session)
              then VotesFor(env, NewTouched(sc.offsets, session, f, fs[f]), root) else 0
  {
    if s :| FirstSessionId(fs[f]) == Some(s) {
      AddTally(env, sc.votes, s, NewTouched(sc.offsets, s, f, fs[f]), session, root);
    }
  }

  /** A file listed again, through overlapping scan roots, adds nothing. */
  lemma RescanAddsNothing(env: Env, sc: Scan, f: string, lines: seq<Line>)
    ensures var once := ScanFile(env, sc, f, lines); ScanFile(env, once, f, lines) == once
  {
    if s :| FirstSessionId(lines) == Some(s) {
      var once := ScanFile(env, sc, f, lines);
      assert lines[|lines|..] == [];
      NothingNew(env);
      AddNothing(once.votes, s);
      assert once.offsets[(s, f) := |lines|] == once.offsets;
    }
  }

  // ---- a whole pass ----

  ghost predicate DoneWith(fs: Files, offsets: OffsetTable, f: string)
    requires f in fs
  {
    match FirstSessionId(fs[f]) case None => true case Some(s) => (s, f) in offsets && offsets[(s, f)] == |fs[f]|
  }

  lemma {:induction false} ScanFilesKeeps(env: Env, fs: Files, sc: Scan, files: seq<string>)
    requires Tidy(env, fs, Mid(sc))
    ensures var after := ScanFiles(env, sc, files, fs);
            && Tidy(env, fs, Mid(after))
            && (forall s, r {:trigger Surplus(env, fs, after.votes, after.offsets, s, r)} ::
                 Surplus(env, fs, after.votes, after.offsets, s, r) == Surplus(env, fs, sc.votes, sc.offsets, s, r))
            && (forall f :: f in fs && DoneWith(fs, sc.offsets, f) ==> DoneWith(fs, after.offsets, f))
            && (AllReadable(files, fs) ==> forall f :: f in files ==> DoneWith(fs, after.offsets, f))
            && (forall dir :: dir in sc.cache.entries ==> dir in after.cache.entries)
    decreases |files|
  {
    if files != [] && files[0] in fs {
      var f, next := files[0], ScanFile(env, sc, files[0], fs[files[0]]);
      CountFileKeepsTidy(env, fs, sc, f);
      forall s, r { ScanFileKeepsSurplus(env, fs, sc, f, s, r); }
      LookupsAreFresh(env, sc.cache, DirsFor(env, sc.offsets, f, fs[f]));
      ScanFilesKeeps(env, fs, next, files[1..]);
      assert DoneWith(fs, next.offsets, f);
      assert files == [f] + files[1..];
    }
  }

  /** A run keeps the tables tidy and every surplus as it was; when every listed file
      could be read it ends with each of them scanned to the last line. */
  lemma ScanRunKeeps(env: Env, fs: Files, st: Store, files: seq<string>)
    requires Tidy(env, fs, st)
    ensures var after := ScanRun(env, st, files, fs);
            && Tidy(env, fs, after)
            && (forall s, r {:trigger Surplus(env, fs, after.votes, after.offsets, s, r)} ::
                 Surplus(env, fs, after.votes, after.offsets, s, r) == Surplus(env, fs, st.votes, st.offsets, s, r))
            && (AllReadable(files, fs) ==> forall f :: f in files ==> DoneWith(fs, after.offsets, f))
            && (forall dir :: dir in st.roots ==> dir in after.roots)
  {
    var sc := Begin(st);
    assert Mid(sc) == st;
    ScanFilesKeeps(env, fs, sc, files);
  }

  // ---- agreement with the from-scratch vote ----

  /** Every path touched in the files of session `s`, file after file. */
  function SessionTouched(fs: Files, names: seq<string>, s: string): seq<string> {
    if names == [] then [] else OwnTouched(fs, names[0], s) + SessionTouched(fs, names[1..], s)
  }

  function OwnTouched(fs: Files, f: string, s: string): seq<string> {
    if f in fs && FirstSessionId(fs[f]) == Some(s) then TouchedPaths(fs[f]) else []
  }

  lemma FileDone(env: Env, fs: Files, st: Store, f: string, s: string, root: string)
    requires Tidy(env, fs, st) && f in fs && DoneWith(fs, st.offsets, f)
    ensures FileVotes(env, fs, st.offsets, s, root)(f) == VotesFor(env, OwnTouched(fs, f, s), root)
  {
    assert fs[f][..|fs[f]|] == fs[f];
    assert (s, f) in st.offsets ==> FirstSessionId(fs[f]) == Some(s);
  }

  lemma {:induction false} ScannedAll(env: Env, fs: Files, st: Store, names: seq<string>, keys: set<string>,
                                      s: string, root: string)
    requires Lists(names, keys) && keys <= fs.Keys && Tidy(env, fs, st)
    requires forall f :: f in keys ==> DoneWith(fs, st.offsets, f)
    ensures SumOver(keys, FileVotes(env, fs, st.offsets, s, root)) == VotesFor(env, SessionTouched(fs, names, s), root)
    decreases |names|
  {
    var fv := FileVotes(env, fs, st.offsets, s, root);
    if names == [] {
      assert forall f :: f in keys ==> f in names;
    } else {
      var f, rest := names[0], names[1..];
      assert f in names && forall g :: g in keys - {f} ==> g in rest by {
        forall g | g in keys - {f} ensures g in rest { assert g in names; }
      }
      SumRemove(keys, fv, f);
      ScannedAll(env, fs, st, rest, keys - {f}, s, root);
      FileDone(env, fs, st, f, s, root);
      VotesForSplit(env, OwnTouched(fs, f, s), SessionTouched(fs, rest, s), root);
    }
  }

  /** For session `s` the stored counts exceed the votes in the scanned part of the files
      by exactly the votes of `twice`, root by root. */
  ghost predicate CountedTwice(env: Env, fs: Files, st: Store, s: string, twice: seq<string>) {
    forall r: string :: Surplus(env, fs, st.votes, st.offsets, s, r) == VotesFor(env, twice, r)
  }

  /** Once every file is scanned, the stored counts of a session are the from-scratch tally
      over all its files, in whatever order they are listed, with `twice` tallied again. */
  lemma CountsAreHistory(env: Env, fs: Files, st: Store, names: seq<string>, s: string, twice: seq<string>)
    requires Tidy(env, fs, st) && CountedTwice(env, fs, st, s, twice)
    requires Lists(names, fs.Keys) && forall f :: f in fs ==> DoneWith(fs, st.offsets, f)
    ensures VoteCountsOf(st.votes, s) == Tally(env, SessionTouched(fs, names, s) + twice)
  {
    var counts, all := VoteCountsOf(st.votes, s), SessionTouched(fs, names, s) + twice;
    var tally := Tally(env, all);
    forall r: string
      ensures r in counts <==> r in tally
      ensures r in counts ==> counts[r] == tally[r]
    {
      ScannedAll(env, fs, st, names, fs.Keys, s, r);
      VotesForSplit(env, SessionTouched(fs, names, s), twice, r);
      TallyCounts(env, all, r);
      assert Surplus(env, fs, st.votes, st.offsets, s, r) == VotesFor(env, twice, r);
    }
    assert counts == tally;
  }

  /** Tallying more paths changes nothing exactly when none of them votes. */
  lemma TallyUnchanged(env: Env, touched: seq<string>, more: seq<string>)
    ensures Tally(env, touched + more) == Tally(env, touched) <==> Tally(env, more) == map[]
  {
    forall r: string
      ensures At(Tally(env, touched + more), r) == At(Tally(env, touched), r) + At(Tally(env, more), r)
      ensures r in Tally(env, touched + more) <==> At(Tally(env, touched + more), r) > 0
      ensures r in Tally(env, touched) <==> At(Tally(env, touched), r) > 0
      ensures r in Tally(env, more) <==> At(Tally(env, more), r) > 0
    {
      VotesForSplit(env, touched, more, r);
      TallyCounts(env, touched + more, r);
      TallyCounts(env, touched, r);
      TallyCounts(env, more, r);
    }
    var whole, part := Tally(env, touched + more), Tally(env, touched);
    if Tally(env, more) == map[] {
      forall r: string ensures r in whole <==> r in part { assert At(Tally(env, more), r) == 0; }
      forall r | r in whole ensures whole[r] == part[r] { assert At(whole, r) == At(part, r) + At(Tally(env, more), r); }
      assert whole == part;
    }
    if whole == part {
      assert forall r: string :: At(Tally(env, more), r) == 0;
      assert Tally(env, more) == map[];
    }
  }

  /** The paths a full, readable run returns are those of ResolveSessionPathFull over the
      whole history, with `twice` voting again. */
  lemma RunReturnsScratchPaths(env: Env, fs: Files, st: Store, files: seq<string>, names: seq<string>,
                               rows: seq<UsageRow>, s: string, twice: seq<string>)
    requires Tidy(env, fs, st) && CountedTwice(env, fs, st, s, twice)
    requires AllReadable(files, fs) && (forall f :: f in fs ==> f in files) && Lists(names, fs.Keys)
    ensures var votes := ScanRun(env, st, files, fs).votes;
            && VoteCountsOf(votes, s) == Tally(env, SessionTouched(fs, names, s) + twice)
            && ((exists r :: r in rows && r.sessionId == s) ==>
                 var paths := PathsFor(env, votes, rows);
                 s in paths && paths[s] == PathFromScratch(env, SessionTouched(fs, names, s) + twice, FirstCwd(rows, s)))
  {
    ScanRunKeeps(env, fs, st, files);
    var after := ScanRun(env, st, files, fs);
    forall r: string ensures Surplus(env, fs, after.votes, after.offsets, s, r) == VotesFor(env, twice, r) {
      assert Surplus(env, fs, after.votes, after.offsets, s, r) == Surplus(env, fs, st.votes, st.offsets, s, r);
    }
    CountsAreHistory(env, fs, after, names, s, twice);
  }

  // ---- what a pass asks of git ----

  /** Every directory looked up while tallying a pass over `files`. */
  ghost function TallyDirs(env: Env, sc: Scan, files: seq<string>, fs: Files): seq<string>
    decreases |files|
  {
    if files == [] || files[0] !in fs then []
    else DirsFor(env, sc.offsets, files[0], fs[files[0]]) +
         TallyDirs(env, ScanFile(env, sc, files[0], fs[files[0]]), files[1..], fs)
  }

  lemma {:induction false} ScanFilesLooks(env: Env, sc: Scan, files: seq<string>, fs: Files)
    ensures ScanFiles(env, sc, files, fs).cache == LookupAll(env, sc.cache, TallyDirs(env, sc, files, fs))
    decreases |files|
  {
    if files != [] && files[0] in fs {
      var next := ScanFile(env, sc, files[0], fs[files[0]]);
      ScanFilesLooks(env, next, files[1..], fs);
      LookupAllSplit(env, sc.cache, DirsFor(env, sc.offsets, files[0], fs[files[0]]), TallyDirs(env, next, files[1..], fs));
    }
  }

  /** A completed run saves every directory it resolved while tallying. */
  lemma TalliedAreSaved(env: Env, st: Store, files: seq<string>, fs: Files)
    requires Agrees(env, st.roots) && AllReadable(files, fs)
    ensures forall dir :: dir in TallyDirs(env, Begin(st), files, fs) && Resolves(env, dir) ==>
              dir in ScanRun(env, st, files, fs).roots
  {
    ScanFilesLooks(env, Begin(st), files, fs);
    LookupsAreFresh(env, Begin(st).cache, TallyDirs(env, Begin(st), files, fs));
  }
}
