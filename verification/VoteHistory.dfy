/** The incremental vote over whole histories: transcripts grow, runs complete or stop
    anywhere (internal/collector/collector.go, internal/collector/path.go). */
module VoteHistory {
  import opened Basics
  import opened Transcript
  import opened GitRoots
  import opened PathStores
  import opened IncrementalVotes
  import opened Ledger
  import opened Collector
  import opened Delivery

  /** A stop between the two commits of a file. */
  ghost predicate StopsMidFile(a: Action, who: string) { a.StopScan? && a.who == who && a.midFile }

  /** What such a stop leaves to be read again: the paths of session `s` in the lines whose
      votes are committed while the offset is not. */
  ghost function LeftBehind(c: Client, files: seq<string>, upto: nat, s: string): seq<string>
    requires upto <= |files|
  {
    if upto < |files| && files[upto] in c.files && FirstSessionId(c.files[files[upto]]) == Some(s) then
      NewTouched(ScanFiles(c.env, Begin(c.store), files[..upto], c.files).offsets, s, files[upto], c.files[files[upto]])
    else []
  }

  ghost function StepReread(w: World, a: Action, who: string, s: string): seq<string>
    requires Enabled(w, a)
  {
    if StopsMidFile(a, who) then LeftBehind(w.clients[who], PathsOf(a.scanned), a.upto, s) else []
  }

  /** Everything the stops of a run leave to be read again, stop after stop. */
  ghost function Reread(w: World, run: seq<Action>, who: string, s: string): seq<string>
    requires Possible(w, run)
    decreases |run|
  {
    if run == [] then [] else StepReread(w, run[0], who, s) + Reread(Next(w, run[0]), run[1..], who, s)
  }

  /** A stop between files leaves every surplus as it was; one inside a file raises it by
      the votes of the lines it leaves to be read again. */
  lemma StoppedSurplus(c: Client, files: seq<string>, upto: nat, midFile: bool, s: string, root: string)
    requires Tidy(c.env, c.files, c.store) && upto <= |files|
    ensures var st := Stopped(c, files, upto, midFile);
            Surplus(c.env, c.files, st.votes, st.offsets, s, root) ==
            Surplus(c.env, c.files, c.store.votes, c.store.offsets, s, root)
              + if midFile then VotesFor(c.env, LeftBehind(c, files, upto, s), root) else 0
  {
    assert Mid(Begin(c.store)) == c.store;
    ScanFilesKeeps(c.env, c.files, Begin(c.store), files[..upto]);
    var sc := ScanFiles(c.env, Begin(c.store), files[..upto], c.files);
    assert Surplus(c.env, c.files, sc.votes, sc.offsets, s, root) ==
           Surplus(c.env, c.files, c.store.votes, c.store.offsets, s, root);
    if midFile && upto < |files| && files[upto] in c.files {
      StopGrowsSurplus(c.env, c.files, sc, files[upto], s, root);
    }
  }

  ghost function ClientSurplus(c: Client, s: string, root: string): int {
    Surplus(c.env, c.files, c.store.votes, c.store.offsets, s, root)
  }

  /** What a step does to a client's tables: it forgets no directory, and raises the surplus
      by exactly the votes of what it leaves to be read again. */
  ghost predicate VotesKept(c: Client, c': Client, s: string, again: seq<string>) {
    && c'.env == c.env && c.store.roots.Keys <= c'.store.roots.Keys
    && forall r: string :: ClientSurplus(c', s, r) == ClientSurplus(c, s, r) + VotesFor(c.env, again, r)
  }

  lemma GrowVotes(c: Client, later: Files, s: string)
    requires Tidy(c.env, c.files, c.store) && Extends(c.files, later)
    ensures VotesKept(c, c.(files := later), s, [])
  {
    forall r: string ensures ClientSurplus(c.(files := later), s, r) == ClientSurplus(c, s, r) {
      GrowthKeepsSurplus(c.env, c.files, later, c.store, s, r);
    }
  }

  lemma StopVotes(c: Client, files: seq<string>, upto: nat, midFile: bool, s: string)
    requires Tidy(c.env, c.files, c.store) && upto <= |files|
    ensures VotesKept(c, c.(store := Stopped(c, files, upto, midFile)), s, if midFile then LeftBehind(c, files, upto, s) else [])
  {
    var c' := c.(store := Stopped(c, files, upto, midFile));
    forall r: string
      ensures ClientSurplus(c', s, r) ==
              ClientSurplus(c, s, r) + VotesFor(c.env, if midFile then LeftBehind(c, files, upto, s) else [], r)
    {
      StoppedSurplus(c, files, upto, midFile, s, r);
    }
  }

  lemma StartVotes(c: Client, scanned: seq<ScannedFile>, s: string)
    requires Tidy(c.env, c.files, c.store)
    ensures VotesKept(c, c.(store := StoreAfterScan(c, scanned)), s, [])
  {
    ScanRunKeeps(c.env, c.files, c.store, PathsOf(scanned));
    var after := StoreAfterScan(c, scanned);
    forall r: string ensures ClientSurplus(c.(store := after), s, r) == ClientSurplus(c, s, r) {
      assert Surplus(c.env, c.files, after.votes, after.offsets, s, r) ==
             Surplus(c.env, c.files, c.store.votes, c.store.offsets, s, r);
    }
  }

  lemma MoveVotes(c: Client, c': Client, a: Action, who: string, s: string)
    requires Tidy(c.env, c.files, c.store) && Moved(c, c', a, who) && (a.Grow? && a.who == who ==> Extends(c.files, a.later))
    ensures VotesKept(c, c', s, if StopsMidFile(a, who) then LeftBehind(c, PathsOf(a.scanned), a.upto, s) else [])
  {
    if a.Grow? && a.who == who {
      GrowVotes(c, a.later, s);
    } else if a.StopScan? && a.who == who {
      StopVotes(c, PathsOf(a.scanned), a.upto, a.midFile, s);
    } else if a.Start? && a.who == who {
      StartVotes(c, a.scanned, s);
    }
  }

  lemma StepVotes(w: World, a: Action, who: string, s: string)
    requires Safe(w) && Enabled(w, a) && who in w.clients
    ensures who in Next(w, a).clients && VotesKept(w.clients[who], Next(w, a).clients[who], s, StepReread(w, a, who, s))
  {
    StepMoves(w, a, who);
    assert ClientSafe(w, w.clients[who]);
    MoveVotes(w.clients[who], Next(w, a).clients[who], a, who, s);
  }

  lemma KeptInTurn(c: Client, c1: Client, c2: Client, s: string, a: seq<string>, b: seq<string>)
    requires VotesKept(c, c1, s, a) && VotesKept(c1, c2, s, b)
    ensures VotesKept(c, c2, s, a + b)
  {
    forall r: string ensures ClientSurplus(c2, s, r) == ClientSurplus(c, s, r) + VotesFor(c.env, a + b, r) {
      VotesForSplit(c.env, a, b, r);
      assert ClientSurplus(c1, s, r) == ClientSurplus(c, s, r) + VotesFor(c.env, a, r);
    }
  }

  /** Over any run, the surplus rises by exactly the votes of what its stops leave to be
      read again. */
  lemma {:induction false} RunVotes(w: World, run: seq<Action>, who: string, s: string)
    requires Safe(w) && Possible(w, run) && who in w.clients
    ensures who in After(w, run).clients && VotesKept(w.clients[who], After(w, run).clients[who], s, Reread(w, run, who, s))
    decreases |run|
  {
    if run != [] {
      var w1 := Next(w, run[0]);
      StepSafe(w, run[0]);
      StepVotes(w, run[0], who, s);
      RunVotes(w1, run[1..], who, s);
      KeptInTurn(w.clients[who], w1.clients[who], After(w, run).clients[who], s,
                 StepReread(w, run[0], who, s), Reread(w1, run[1..], who, s));
    }
  }

  lemma InitExact(w: World, who: string, s: string, root: string)
    requires Init(w) && who in w.clients
    ensures ClientSurplus(w.clients[who], s, root) == 0
  {
    var c := w.clients[who];
    SumWiden({}, c.files.Keys, FileVotes(c.env, c.files, c.store.offsets, s, root));
  }

  lemma CountedFromNothing(c0: Client, c: Client, s: string, again: seq<string>)
    requires VotesKept(c0, c, s, again) && forall r: string :: ClientSurplus(c0, s, r) == 0
    ensures c.env == c0.env && CountedTwice(c.env, c.files, c.store, s, again)
  {
    forall r: string ensures Surplus(c.env, c.files, c.store.votes, c.store.offsets, s, r) == VotesFor(c.env, again, r) {
      assert ClientSurplus(c, s, r) == ClientSurplus(c0, s, r) + VotesFor(c0.env, again, r);
    }
  }

  lemma HistoryCounted(w0: World, run: seq<Action>, who: string, s: string)
    requires Init(w0) && Possible(w0, run) && who in w0.clients
    ensures who in After(w0, run).clients && ClientSafe(After(w0, run), After(w0, run).clients[who])
    ensures var c := After(w0, run).clients[who];
            c.env == w0.clients[who].env && CountedTwice(c.env, c.files, c.store, s, Reread(w0, run, who, s))
  {
    ReachableSafe(w0, run);
    InitSafe(w0);
    RunVotes(w0, run, who, s);
    forall r: string ensures ClientSurplus(w0.clients[who], s, r) == 0 { InitExact(w0, who, s, r); }
    CountedFromNothing(w0.clients[who], After(w0, run).clients[who], s, Reread(w0, run, who, s));
  }

  /** A full run of `who` after the history `run`, over files listed as `names`. */
  ghost predicate FullRun(w: World, who: string, scanned: seq<ScannedFile>, names: seq<string>) {
    && CanRun(w, who, scanned) && Lists(names, w.clients[who].files.Keys)
    && forall f :: f in w.clients[who].files ==> f in PathsOf(scanned)
  }

  /** After any history whatever, a run over all files leaves as stored counts the from-scratch
      tally of the whole history with the lines left behind by stops tallied again, and its
      paths are what ResolveSessionPathFull gives that. */
  lemma IncrementalIsHistory(w0: World, run: seq<Action>, who: string, scanned: seq<ScannedFile>,
                             names: seq<string>, s: string)
    requires Init(w0) && Possible(w0, run) && FullRun(After(w0, run), who, scanned, names)
    ensures var c := After(w0, run).clients[who];
            var rows, all := FoundRows(scanned, c.files), SessionTouched(c.files, names, s) + Reread(w0, run, who, s);
            && VoteCountsOf(StoreAfterScan(c, scanned).votes, s) == Tally(c.env, all)
            && ((exists r :: r in rows && r.sessionId == s) ==>
                 var paths := PathsFor(c.env, StoreAfterScan(c, scanned).votes, rows);
                 && s in paths && paths[s] == PathFromScratch(c.env, all, FirstCwd(rows, s))
                 && exists cwd :: IsFirstCwd(rows, s, cwd) && IsSessionPath(c.env, all, cwd, paths[s]))
  {
    ClientsStay(w0, run);
    HistoryCounted(w0, run, who, s);
    var c := After(w0, run).clients[who];
    RunReturnsScratchPaths(c.env, c.files, c.store, PathsOf(scanned), names, FoundRows(scanned, c.files), s, Reread(w0, run, who, s));
    FirstCwdExactly(FoundRows(scanned, c.files), s);
    ScratchIsSessionPath(c.env, SessionTouched(c.files, names, s) + Reread(w0, run, who, s), FirstCwd(FoundRows(scanned, c.files), s));
  }

  /** No stop of the run had anything to vote for session `s`. */
  ghost predicate QuietStops(w: World, run: seq<Action>, who: string, s: string)
    requires Possible(w, run) && who in w.clients
    decreases |run|
  {
    run != [] ==>
      && Tally(w.clients[who].env, StepReread(w, run[0], who, s)) == map[]
      && who in Next(w, run[0]).clients && QuietStops(Next(w, run[0]), run[1..], who, s)
  }

  lemma {:induction false} QuietMeansNothingReread(w: World, run: seq<Action>, who: string, s: string)
    requires Possible(w, run) && who in w.clients
    ensures QuietStops(w, run, who, s) <==> Tally(w.clients[who].env, Reread(w, run, who, s)) == map[]
    ensures (forall a :: a in run ==> !StopsMidFile(a, who)) ==> Reread(w, run, who, s) == []
    decreases |run|
  {
    if run != [] {
      StepMoves(w, run[0], who);
      QuietMeansNothingReread(Next(w, run[0]), run[1..], who, s);
      EmptyTallies(w.clients[who].env, StepReread(w, run[0], who, s), Reread(Next(w, run[0]), run[1..], who, s));
    }
  }

  lemma EmptyTallies(env: Env, a: seq<string>, b: seq<string>)
    ensures Tally(env, a + b) == map[] <==> Tally(env, a) == map[] && Tally(env, b) == map[]
  {
    if Tally(env, a) == map[] {
      TallyUnchanged(env, a, b);
    } else {
      var r :| r in Tally(env, a);
      TallyCounts(env, a, r);
      VotesForSplit(env, a, b, r);
      TallyCounts(env, a + b, r);
    }
  }

  /** Incremental equals from-scratch, exactly: the stored counts are those of the whole
      history if and only if no stop between the two commits of a file had anything to vote.
      Then the paths agree too; without such stops, always. */
  lemma IncrementalEqualsScratch(w0: World, run: seq<Action>, who: string, scanned: seq<ScannedFile>,
                                 names: seq<string>, s: string)
    requires Init(w0) && Possible(w0, run) && FullRun(After(w0, run), who, scanned, names) && who in w0.clients
    ensures var c := After(w0, run).clients[who];
            var rows, votes := FoundRows(scanned, c.files), StoreAfterScan(c, scanned).votes;
            && (VoteCountsOf(votes, s) == Tally(c.env, SessionTouched(c.files, names, s)) <==> QuietStops(w0, run, who, s))
            && ((forall a :: a in run ==> !StopsMidFile(a, who)) ==> QuietStops(w0, run, who, s))
            && (QuietStops(w0, run, who, s) && (exists r :: r in rows && r.sessionId == s) ==>
                 var paths := PathsFor(c.env, votes, rows);
                 && s in paths && paths[s] == PathFromScratch(c.env, SessionTouched(c.files, names, s), FirstCwd(rows, s))
                 && exists cwd :: IsFirstCwd(rows, s, cwd) && IsSessionPath(c.env, SessionTouched(c.files, names, s), cwd, paths[s]))
  {
    HistoryCounted(w0, run, who, s);
    IncrementalIsHistory(w0, run, who, scanned, names, s);
    QuietMeansNothingReread(w0, run, who, s);
    var c := After(w0, run).clients[who];
    TallyUnchanged(c.env, SessionTouched(c.files, names, s), Reread(w0, run, who, s));
    FirstCwdExactly(FoundRows(scanned, c.files), s);
    ScratchIsSessionPath(c.env, SessionTouched(c.files, names, s), FirstCwd(FoundRows(scanned, c.files), s));
  }

  /** With stops, each count is too high by exactly the votes left to be read again. */
  lemma IncrementalOverCounts(w0: World, run: seq<Action>, who: string, scanned: seq<ScannedFile>, names: seq<string>,
                              s: string, root: string)
    requires Init(w0) && Possible(w0, run) && FullRun(After(w0, run), who, scanned, names)
    ensures var c := After(w0, run).clients[who];
            At(VoteCountsOf(StoreAfterScan(c, scanned).votes, s), root) ==
            VotesFor(c.env, SessionTouched(c.files, names, s), root) + VotesFor(c.env, Reread(w0, run, who, s), root)
  {
    IncrementalIsHistory(w0, run, who, scanned, names, s);
    var c := After(w0, run).clients[who];
    var own, again := SessionTouched(c.files, names, s), Reread(w0, run, who, s);
    TallyCounts(c.env, own + again, root);
    VotesForSplit(c.env, own, again, root);
  }

  // ---- git is asked once ----

  /** A directory that resolved while a completed run was tallying never reaches git again,
      in any later run. */
  lemma NeverAskedAgain(w: World, who: string, scanned: seq<ScannedFile>, req: Request, run: seq<Action>, dir: string,
                        looked: Cache)
    requires Safe(w) && Enabled(w, Start(who, scanned, req))
    requires Possible(Next(w, Start(who, scanned, req)), run)
    requires dir in TallyDirs(w.clients[who].env, Begin(w.clients[who].store), PathsOf(scanned), w.clients[who].files)
    requires Resolves(w.clients[who].env, dir)
    requires var later := After(Next(w, Start(who, scanned, req)), run);
             who in later.clients && AskedFresh(later.clients[who].env, Cache(later.clients[who].store.roots, []), looked)
    ensures dir !in looked.asked
  {
    var c, w1 := w.clients[who], Next(w, Start(who, scanned, req));
    assert ClientSafe(w, c);
    TalliedAreSaved(c.env, c.store, PathsOf(scanned), c.files);
    StepSafe(w, Start(who, scanned, req));
    RunVotes(w1, run, who, "");
    var later := After(w1, run);
    assert dir in later.clients[who].store.roots;
    assert forall i :: 0 <= i < |looked.asked| ==> looked.asked[i] != dir;
  }
}
