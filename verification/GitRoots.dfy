/** From touched paths to a session's `path`: git roots, the cache in front of git,
    the vote and the fallback chain (internal/collector/path.go). */
module GitRoots {
  import opened Basics

  /** What an install's machine answers: git's root of a directory (or an error), and
      the directory a touched path is looked up under. */
  datatype Env = Env(resolve: string -> Option<string>, dirOf: string -> string)

  // ---- votes, counted from scratch ----

  predicate IsScratchPath(p: string) { p == "/tmp" || "/tmp/" <= p }

  /** git's root of `dir` when there is one, else `dir` itself. */
  function RootOr(env: Env, dir: string): string {
    match env.resolve(dir) case Some(root) => (if root == "" then dir else root) case None => dir
  }

  predicate Votes(p: string) { p != "" && !IsScratchPath(p) }

  function VotesFor(env: Env, touched: seq<string>, root: string): nat {
    if touched == [] then 0
    else VotesFor(env, touched[1..], root) +
         if Votes(touched[0]) && RootOr(env, env.dirOf(touched[0])) == root then 1 else 0
  }

  /** The from-scratch tally: every root with at least one vote, and how many it has. */
  function Tally(env: Env, touched: seq<string>): map<string, int> {
    var roots := set p | p in touched && Votes(p) :: RootOr(env, env.dirOf(p));
    map root | root in roots :: VotesFor(env, touched, root)
  }

  lemma {:induction false} VotesForSplit(env: Env, a: seq<string>, b: seq<string>, root: string)
    ensures VotesFor(env, a + b, root) == VotesFor(env, a, root) + VotesFor(env, b, root)
  {
    if a == [] {
      assert a + b == b;
    } else {
      assert (a + b)[1..] == a[1..] + b;
      VotesForSplit(env, a[1..], b, root);
    }
  }

  lemma VotesForSnoc(env: Env, touched: seq<string>, p: string, root: string)
    ensures VotesFor(env, touched + [p], root) == VotesFor(env, touched, root) +
              if Votes(p) && RootOr(env, env.dirOf(p)) == root then 1 else 0
  {
    VotesForSplit(env, touched, [p], root);
    assert [p][1..] == [];
  }

  /** A root is in the tally exactly when some path votes for it, and then its entry is
      positive. */
  lemma {:induction false} TallyCounts(env: Env, touched: seq<string>, root: string)
    ensures root in Tally(env, touched) <==> VotesFor(env, touched, root) > 0
    ensures root in Tally(env, touched) ==> Tally(env, touched)[root] == VotesFor(env, touched, root)
  {
    if touched != [] {
      TallyCounts(env, touched[1..], root);
      assert forall p :: p in touched <==> p == touched[0] || p in touched[1..];
    }
  }

  function Bump(env: Env, counts: map<string, int>, p: string): map<string, int> {
    var root := RootOr(env, env.dirOf(p));
    if Votes(p) then counts[root := (if root in counts then counts[root] else 0) + 1] else counts
  }

  function BumpAll(env: Env, counts: map<string, int>, touched: seq<string>): map<string, int>
    decreases |touched|
  {
    if touched == [] then counts else BumpAll(env, Bump(env, counts, touched[0]), touched[1..])
  }

  lemma TallySnoc(env: Env, touched: seq<string>, p: string)
    ensures Tally(env, touched + [p]) == Bump(env, Tally(env, touched), p)
  {
    var after, expected := Tally(env, touched + [p]), Bump(env, Tally(env, touched), p);
    forall root: string
      ensures root in after <==> root in expected
      ensures root in after ==> after[root] == expected[root]
    {
      TallyCounts(env, touched, root);
      TallyCounts(env, touched + [p], root);
      VotesForSnoc(env, touched, p, root);
    }
    assert after == expected;
  }

  /** Counting one path at a time arrives at the from-scratch tally. */
  lemma {:induction false} BumpAllIsTally(env: Env, a: seq<string>, b: seq<string>)
    ensures BumpAll(env, Tally(env, a), b) == Tally(env, a + b)
    decreases |b|
  {
    if b == [] {
      assert a + b == a;
    } else {
      TallySnoc(env, a, b[0]);
      BumpAllIsTally(env, a + [b[0]], b[1..]);
      assert a + b == (a + [b[0]]) + b[1..];
    }
  }

  // ---- the cache in front of git ----

  /** `asked` lists the directories that were passed on to git, in order. */
  datatype Cache = Cache(entries: map<string, string>, asked: seq<string>)

  ghost predicate Agrees(env: Env, entries: map<string, string>) {
    forall dir :: dir in entries ==> env.resolve(dir) == Some(entries[dir])
  }

  function Lookup(env: Env, c: Cache, dir: string): Cache {
    if dir in c.entries then c
    else match env.resolve(dir)
      case Some(root) => Cache(c.entries[dir := root], c.asked + [dir])
      case None => Cache(c.entries, c.asked + [dir])
  }

  function LookupAll(env: Env, c: Cache, dirs: seq<string>): Cache
    decreases |dirs|
  {
    if dirs == [] then c else LookupAll(env, Lookup(env, c, dirs[0]), dirs[1..])
  }

  /** The directories a tally looks up, in order. */
  function DirsOf(env: Env, touched: seq<string>): seq<string> {
    if touched == [] then []
    else (if Votes(touched[0]) then [env.dirOf(touched[0])] else []) + DirsOf(env, touched[1..])
  }

  lemma LookupsStep(env: Env, c: Cache, touched: seq<string>, i: nat)
    requires i < |touched|
    ensures LookupAll(env, c, DirsOf(env, touched[i..])) ==
            LookupAll(env, if Votes(touched[i]) then Lookup(env, c, env.dirOf(touched[i])) else c,
                      DirsOf(env, touched[i + 1..]))
  {
    var dir, rest := env.dirOf(touched[i]), DirsOf(env, touched[i + 1..]);
    assert touched[i..][1..] == touched[i + 1..];
    assert Votes(touched[i]) ==> ([dir] + rest)[0] == dir && ([dir] + rest)[1..] == rest;
    assert [] + rest == rest;
  }

  ghost predicate Resolves(env: Env, dir: string) { env.resolve(dir).Some? }

  /** The lookups that reached git between two cache states. */
  ghost predicate AskedFresh(env: Env, before: Cache, after: Cache) {
    && before.asked <= after.asked
    && before.entries.Keys <= after.entries.Keys
    && (forall i {:trigger after.asked[i]} :: |before.asked| <= i < |after.asked| ==>
         after.asked[i] !in before.entries)
    && (forall i {:trigger after.asked[i]} ::
         |before.asked| <= i < |after.asked| && Resolves(env, after.asked[i]) ==>
         after.asked[i] in after.entries)
    && (forall i, j {:trigger after.asked[i], after.asked[j]} ::
         |before.asked| <= i < j < |after.asked| && Resolves(env, after.asked[i]) ==>
         after.asked[i] != after.asked[j])
  }

  /** Over any run of lookups the cache keeps agreeing with git, remembers every
      directory that resolved, never asks git about a directory it already knew, and
      asks about a directory that resolves at most once. */
  lemma {:induction false} LookupsAreFresh(env: Env, c: Cache, dirs: seq<string>)
    requires Agrees(env, c.entries)
    ensures Agrees(env, LookupAll(env, c, dirs).entries)
    ensures forall dir :: dir in c.entries ==> dir in LookupAll(env, c, dirs).entries
    ensures forall dir :: dir in dirs && Resolves(env, dir) ==> dir in LookupAll(env, c, dirs).entries
    ensures AskedFresh(env, c, LookupAll(env, c, dirs))
    decreases |dirs|
  {
    if dirs != [] {
      var c1 := Lookup(env, c, dirs[0]);
      LookupsAreFresh(env, c1, dirs[1..]);
      var c2 := LookupAll(env, c1, dirs[1..]);
      assert c2 == LookupAll(env, c, dirs);
      forall dir | dir in dirs && Resolves(env, dir) ensures dir in c2.entries {
        if dir == dirs[0] { assert dir in c1.entries; } else { assert dir in dirs[1..]; }
      }
      assert c2.asked[..|c1.asked|] == c1.asked;
    }
  }

  lemma {:induction false} LookupAllSplit(env: Env, c: Cache, a: seq<string>, b: seq<string>)
    ensures LookupAll(env, c, a + b) == LookupAll(env, LookupAll(env, c, a), b)
    decreases |a|
  {
    if a == [] {
      assert a + b == b;
    } else {
      assert (a + b)[1..] == a[1..] + b;
      LookupAllSplit(env, Lookup(env, c, a[0]), a[1..], b);
    }
  }

  /** GitRootCache together with the resolver CachedGitRootResolver wraps. */
  class GitRootCache {
    const env: Env
    var entries: map<string, string>
    ghost var asked: seq<string>

    ghost predicate Valid() reads this { Agrees(env, entries) }

    ghost function State(): Cache reads this { Cache(entries, asked) }

    constructor (env: Env)
      ensures this.env == env && Valid() && State() == Cache(map[], [])
    {
      this.env := env;
      entries, asked := map[], [];
    }

    method Seed(seed: map<string, string>)
      requires Valid() && Agrees(env, seed)
      modifies this
      ensures Valid() && State() == Cache(old(entries) + seed, old(asked))
    {
      entries := entries + seed;
    }

    /** The cached resolver answers what git itself would, errors included. */
    method Resolve(dir: string) returns (root: Option<string>)
      requires Valid()
      modifies this
      ensures Valid() && State() == Lookup(env, old(State()), dir)
      ensures root == env.resolve(dir)
    {
      if dir in entries {
        return Some(entries[dir]);
      }
      root := env.resolve(dir);
      asked := asked + [dir];
      if root.Some? {
        entries := entries[dir := root.value];
      }
    }
  }

  method TallyGitRoots(touched: seq<string>, cache: GitRootCache) returns (counts: map<string, int>)
    requires cache.Valid()
    modifies cache
    ensures cache.Valid() && cache.State() == LookupAll(cache.env, old(cache.State()), DirsOf(cache.env, touched))
    ensures counts == Tally(cache.env, touched)
  {
    var env := cache.env;
    counts := map[];
    for i := 0 to |touched|
      invariant cache.Valid()
      invariant LookupAll(env, cache.State(), DirsOf(env, touched[i..])) ==
                LookupAll(env, old(cache.State()), DirsOf(env, touched))
      invariant BumpAll(env, counts, touched[i..]) == BumpAll(env, map[], touched)
    {
      var p := touched[i];
      LookupsStep(env, cache.State(), touched, i);
      assert touched[i..][1..] == touched[i + 1..];
      if p == "" || IsScratchPath(p) { continue; }
      var dir := env.dirOf(p);
      var resolved := cache.Resolve(dir);
      var root := if resolved == None || resolved.value == "" then dir else resolved.value;
      counts := counts[root := (if root in counts then counts[root] else 0) + 1];
    }
    BumpAllIsTally(env, [], touched);
    assert [] + touched == touched && Tally(env, []) == map[];
  }

  // ---- the majority vote ----

  /** The lexicographically least of the roots whose positive count is highest. */
  ghost predicate IsWinner(counts: map<string, int>, w: string) {
    && w in counts && counts[w] > 0
    && forall r :: r in counts && r != w ==> counts[r] < counts[w] || (counts[r] == counts[w] && Less(w, r))
  }

  ghost function Winner(counts: map<string, int>): Option<string> {
    if exists w :: IsWinner(counts, w) then (var w :| IsWinner(counts, w); Some(w)) else None
  }

  lemma WinnerUnique(counts: map<string, int>, w: string, v: string)
    requires IsWinner(counts, w) && IsWinner(counts, v)
    ensures w == v
  {
    if w != v && Less(w, v) { LessAsymmetric(w, v); }
  }

  /** There is a winner exactly when some count is positive. */
  lemma {:induction false} WinnerExists(counts: map<string, int>)
    ensures Winner(counts).Some? <==> exists r :: r in counts && counts[r] > 0
    decreases |counts|
  {
    if r :| r in counts && counts[r] > 0 {
      var rest := counts - {r};
      assert |rest.Keys| < |counts.Keys| by { assert rest.Keys == counts.Keys - {r}; }
      WinnerExists(rest);
      if w :| IsWinner(rest, w) {
        assert forall v :: v in counts && v != r ==> v in rest && rest[v] == counts[v];
        if counts[w] > counts[r] || (counts[w] == counts[r] && Less(w, r)) {
          assert IsWinner(counts, w);
        } else {
          LessTotal(w, r);
          forall v | v in counts && v != r
            ensures counts[v] < counts[r] || (counts[v] == counts[r] && Less(r, v))
          {
            if v != w && counts[v] == counts[r] { LessTransitive(r, w, v); }
          }
          assert IsWinner(counts, r);
        }
      } else {
        forall v | v in counts && v != r ensures counts[v] <= 0 { assert v in rest; }
        assert IsWinner(counts, r);
      }
    }
  }

  /** Go visits the map in an arbitrary order; the winner does not depend on it. */
  method MajorityGitRoot(counts: map<string, int>) returns (root: string, ok: bool)
    ensures Winner(counts) == if ok then Some(root) else None
    ensures ok ==> IsWinner(counts, root)
    ensures ok <==> exists r :: r in counts && counts[r] > 0
  {
    root := "";
    var best := 0;
    var todo := counts.Keys;
    while todo != {}
      invariant todo <= counts.Keys && best >= 0
      invariant best == 0 ==> root == "" && forall r :: r in counts.Keys - todo ==> counts[r] <= 0
      invariant best > 0 ==> IsWinner(map r | r in counts.Keys - todo :: counts[r], root) && best == counts[root]
      decreases todo
    {
      var r :| r in todo;
      var c := counts[r];
      if best > 0 && c == best { LessTotal(r, root); }
      if c > best || (c == best && c > 0 && Less(r, root)) {
        if c == best {
          forall v | v in counts.Keys - todo && v != root && counts[v] == best ensures Less(r, v) {
            LessTransitive(r, root, v);
          }
        }
        root, best := r, c;
      }
      todo := todo - {r};
    }
    ok := best > 0;
    assert (map r | r in counts.Keys - todo :: counts[r]) == counts;
    if ok {
      forall v | IsWinner(counts, v) ensures v == root { WinnerUnique(counts, root, v); }
    }
  }

  // ---- the fallback chain ----

  const UNKNOWN_PATH := "(unknown)"

  ghost function PathFromVotes(env: Env, counts: map<string, int>, cwd: Option<string>): string {
    match Winner(counts)
    case Some(w) => w
    case None => match cwd case Some(dir) => RootOr(env, dir) case None => UNKNOWN_PATH
  }

  /** The fallback chain, case by case: the winning root; with no vote, git's root of the cwd or
      else the cwd itself; with neither, the unknown path. */
  ghost predicate Attributed(env: Env, counts: map<string, int>, cwd: Option<string>, path: string) {
    && (forall w :: IsWinner(counts, w) ==> path == w)
    && ((forall r :: r in counts ==> counts[r] <= 0) ==> path == FallbackPath(env, cwd))
  }

  ghost function FallbackPath(env: Env, cwd: Option<string>): string {
    if cwd.None? then "(unknown)"
    else if env.resolve(cwd.value).Some? && env.resolve(cwd.value).value != "" then env.resolve(cwd.value).value
    else cwd.value
  }

  lemma PathIsAttributed(env: Env, counts: map<string, int>, cwd: Option<string>)
    ensures Attributed(env, counts, cwd, PathFromVotes(env, counts, cwd))
  {
    WinnerExists(counts);
    forall w | IsWinner(counts, w) ensures Winner(counts) == Some(w) {
      var v := Winner(counts).value;
      WinnerUnique(counts, v, w);
    }
  }

  // ---- the vote, counted over positions ----

  /** The path votes for this root: git's root of its directory when there is one, else the
      directory. Scratch paths do not vote. */
  ghost predicate VotesRoot(env: Env, p: string, root: string) {
    && p != "" && p != "/tmp" && !("/tmp/" <= p)
    && var answer := env.resolve(env.dirOf(p));
       root == if answer.Some? && answer.value != "" then answer.value else env.dirOf(p)
  }

  ghost function Ballots(env: Env, touched: seq<string>, root: string): nat {
    |BallotBox(env, touched, root)|
  }

  ghost function BallotBox(env: Env, touched: seq<string>, root: string): set<int> {
    set k | 0 <= k < |touched| && VotesRoot(env, touched[k], root)
  }

  lemma {:induction false} VotesAreBallots(env: Env, touched: seq<string>, root: string)
    ensures VotesFor(env, touched, root) == Ballots(env, touched, root)
    decreases |touched|
  {
    if touched != [] {
      var n := |touched| - 1;
      var before, last := touched[..n], touched[n];
      VotesAreBallots(env, before, root);
      assert touched == before + [last];
      VotesForSnoc(env, before, last, root);
      if VotesRoot(env, last, root) {
        assert BallotBox(env, touched, root) == BallotBox(env, before, root) + {n};
      } else {
        assert BallotBox(env, touched, root) == BallotBox(env, before, root);
      }
    }
  }

  /** The root with most ballots; of several, the least. */
  ghost predicate Elected(env: Env, touched: seq<string>, w: string) {
    && Ballots(env, touched, w) > 0
    && forall r: string :: r != w ==>
         Ballots(env, touched, r) < Ballots(env, touched, w) || (Ballots(env, touched, r) == Ballots(env, touched, w) && Less(w, r))
  }

  /** The path of a session whose files touch `touched` and whose first cwd is `cwd`. */
  ghost predicate IsSessionPath(env: Env, touched: seq<string>, cwd: Option<string>, path: string) {
    && (forall w :: Elected(env, touched, w) ==> path == w)
    && ((forall r: string :: Ballots(env, touched, r) == 0) ==> path == FallbackPath(env, cwd))
    && (Elected(env, touched, path) || forall r: string :: Ballots(env, touched, r) == 0)
  }

  lemma WinnerIsElected(env: Env, touched: seq<string>, w: string)
    ensures IsWinner(Tally(env, touched), w) <==> Elected(env, touched, w)
  {
    var tally := Tally(env, touched);
    forall r: string
      ensures r in tally <==> Ballots(env, touched, r) > 0
      ensures r in tally ==> tally[r] == Ballots(env, touched, r)
    {
      TallyCounts(env, touched, r);
      VotesAreBallots(env, touched, r);
    }
  }

  /** ResolveSessionPathFull: tally the whole list of touched paths, then fall back. */
  ghost function PathFromScratch(env: Env, touched: seq<string>, cwd: Option<string>): string {
    PathFromVotes(env, Tally(env, touched), cwd)
  }

  lemma ScratchIsSessionPath(env: Env, touched: seq<string>, cwd: Option<string>)
    ensures IsSessionPath(env, touched, cwd, PathFromScratch(env, touched, cwd))
  {
    var tally := Tally(env, touched);
    var path := PathFromScratch(env, touched, cwd);
    PathIsAttributed(env, tally, cwd);
    forall w ensures IsWinner(tally, w) <==> Elected(env, touched, w) { WinnerIsElected(env, touched, w); }
    forall r: string ensures r in tally <==> Ballots(env, touched, r) > 0 {
      TallyCounts(env, touched, r);
      VotesAreBallots(env, touched, r);
    }
    WinnerExists(tally);
    if w :| IsWinner(tally, w) {
      assert Elected(env, touched, path);
    } else {
      assert Winner(tally).None?;
      forall r: string ensures Ballots(env, touched, r) == 0 {
        TallyCounts(env, touched, r);
        VotesAreBallots(env, touched, r);
      }
    }
  }

  /** The directories the fallback looks up: the cwd, when the vote decides nothing. */
  ghost function FallbackDirs(counts: map<string, int>, cwd: Option<string>): seq<string> {
    if Winner(counts).None? && cwd.Some? then [cwd.value] else []
  }

  method ResolvePathFromVoteCounts(counts: map<string, int>, cwd: string, cwdOK: bool, cache: GitRootCache)
    returns (path: string)
    requires cache.Valid()
    modifies cache
    ensures cache.Valid()
    ensures cache.State() == LookupAll(cache.env, old(cache.State()), FallbackDirs(counts, if cwdOK then Some(cwd) else None))
    ensures path == PathFromVotes(cache.env, counts, if cwdOK then Some(cwd) else None)
    ensures Attributed(cache.env, counts, if cwdOK then Some(cwd) else None, path)
  {
    PathIsAttributed(cache.env, counts, if cwdOK then Some(cwd) else None);
    var winner, ok := MajorityGitRoot(counts);
    if ok {
      return winner;
    }
    if cwdOK {
      var resolved := cache.Resolve(cwd);
      return if resolved.Some? && resolved.value != "" then resolved.value else cwd;
    }
    return UNKNOWN_PATH;
  }
}
