/** The console's path labels: start at the basename and let tied rows walk up together
    until the ties are gone (web/src/lib/pathDisplay.ts). */
module PathLabels {

  /** `machine` is the empty string when the row names none. */
  datatype Row = Row(path: string, machine: string)

  datatype Shown = Shown(path: string, machine: string, text: string, title: string)

  // ---- segments ----

  /** path.split("/") */
  function SplitSlash(s: string): (parts: seq<string>)
    ensures parts != []
  {
    if s == "" then [""]
    else
      var rest := SplitSlash(s[1..]);
      if s[0] == '/' then [""] + rest else [[s[0]] + rest[0]] + rest[1..]
  }

  function NonEmpty(parts: seq<string>): seq<string> {
    if parts == [] then []
    else if parts[0] == "" then NonEmpty(parts[1..])
    else [parts[0]] + NonEmpty(parts[1..])
  }

  function SegmentsOf(path: string): seq<string> { NonEmpty(SplitSlash(path)) }

  function Join(segs: seq<string>): string {
    if segs == [] then "" else if |segs| == 1 then segs[0] else segs[0] + "/" + Join(segs[1..])
  }

  predicate IsSegment(s: string) { s != "" && '/' !in s }

  predicate AreSegments(segs: seq<string>) { forall k :: 0 <= k < |segs| ==> IsSegment(segs[k]) }

  lemma {:induction false} SplitAtSlash(a: string, rest: string)
    requires '/' !in a
    ensures SplitSlash(a + "/" + rest) == [a] + SplitSlash(rest)
    ensures SplitSlash(a) == [a]
  {
    var s := a + "/" + rest;
    if a == "" {
      assert s[0] == '/' && s[1..] == rest;
    } else {
      assert s[1..] == a[1..] + "/" + rest;
      SplitAtSlash(a[1..], rest);
      assert a == [a[0]] + a[1..];
    }
  }

  /** Splitting undoes joining. */
  lemma {:induction false} SegmentsOfJoin(segs: seq<string>)
    requires AreSegments(segs)
    ensures SegmentsOf(Join(segs)) == segs
  {
    if segs == [] {
      assert SplitSlash("") == [""];
    } else if |segs| == 1 {
      SplitAtSlash(segs[0], "");
      assert segs == [segs[0]] && NonEmpty([segs[0]][1..]) == [];
    } else {
      SplitAtSlash(segs[0], Join(segs[1..]));
      SegmentsOfJoin(segs[1..]);
      var rest := SplitSlash(Join(segs[1..]));
      assert ([segs[0]] + rest)[1..] == rest;
    }
  }

  lemma {:induction false} SplitConcat(a: string, b: string)
    ensures SplitSlash(a + "/" + b) == SplitSlash(a) + SplitSlash(b)
  {
    var s := a + "/" + b;
    if a == "" {
      assert s[0] == '/' && s[1..] == b;
    } else {
      assert s[1..] == a[1..] + "/" + b;
      SplitConcat(a[1..], b);
    }
  }

  lemma {:induction false} NonEmptyConcat(a: seq<string>, b: seq<string>)
    ensures NonEmpty(a + b) == NonEmpty(a) + NonEmpty(b)
  {
    if a == [] {
      assert a + b == b;
    } else {
      assert (a + b)[1..] == a[1..] + b;
      NonEmptyConcat(a[1..], b);
    }
  }

  /** Segments are what stands between slashes, less the empty ones. */
  lemma SegmentsExactly(a: string, b: string)
    ensures SegmentsOf(a + "/" + b) == SegmentsOf(a) + SegmentsOf(b)
    ensures '/' !in a ==> SegmentsOf(a) == if a == "" then [] else [a]
  {
    SplitConcat(a, b);
    NonEmptyConcat(SplitSlash(a), SplitSlash(b));
    if '/' !in a { SplitAtSlash(a, ""); }
  }

  /** Joined segments stand between single slashes. */
  lemma {:induction false} JoinSplits(segs: seq<string>)
    requires AreSegments(segs) && segs != []
    ensures SplitSlash(Join(segs)) == segs
  {
    if |segs| == 1 {
      SplitAtSlash(segs[0], "");
    } else {
      SplitAtSlash(segs[0], Join(segs[1..]));
      JoinSplits(segs[1..]);
    }
  }

  lemma {:induction false} SplitHasNoSlash(s: string)
    ensures forall k :: 0 <= k < |SplitSlash(s)| ==> '/' !in SplitSlash(s)[k]
  {
    if s != "" { SplitHasNoSlash(s[1..]); }
  }

  lemma {:induction false} NonEmptyAreSegments(parts: seq<string>)
    requires forall k :: 0 <= k < |parts| ==> '/' !in parts[k]
    ensures AreSegments(NonEmpty(parts))
  {
    if parts != [] { NonEmptyAreSegments(parts[1..]); }
  }

  lemma SegmentsAreSegments(path: string)
    ensures AreSegments(SegmentsOf(path))
  {
    SplitHasNoSlash(path);
    NonEmptyAreSegments(SplitSlash(path));
  }

  // ---- candidates ----

  function Min(a: nat, b: nat): nat { if a <= b then a else b }

  /** The last `d` segments, or all of them. */
  function Tail(segs: seq<string>, d: nat): seq<string> { segs[|segs| - Min(d, |segs|)..] }

  function CandidateAt(path: string, depth: nat): string {
    var segs := SegmentsOf(path);
    if segs == [] then path else Join(Tail(segs, depth))
  }

  /** Candidates of two rows agree exactly when both paths have segments and the shown
      tails agree, or both have none and are the same string. */
  lemma SameCandidate(p: string, dp: nat, q: string, dq: nat)
    requires dp >= 1 && dq >= 1
    ensures CandidateAt(p, dp) == CandidateAt(q, dq) <==>
              if SegmentsOf(p) == [] || SegmentsOf(q) == [] then p == q
              else Tail(SegmentsOf(p), dp) == Tail(SegmentsOf(q), dq)
  {
    SegmentsAreSegments(p);
    SegmentsAreSegments(q);
    var sp, sq := SegmentsOf(p), SegmentsOf(q);
    if sp != [] { SegmentsOfJoin(Tail(sp, dp)); }
    if sq != [] { SegmentsOfJoin(Tail(sq, dq)); }
  }

  /** The length of the longest common trailing run. */
  function Common(a: seq<string>, b: seq<string>): nat {
    if a == [] || b == [] || a[|a| - 1] != b[|b| - 1] then 0
    else 1 + Common(a[..|a| - 1], b[..|b| - 1])
  }

  lemma TailSnoc(a: seq<string>, d: nat)
    requires 1 <= d <= |a|
    ensures Tail(a, d) == Tail(a[..|a| - 1], d - 1) + [a[|a| - 1]] && |Tail(a[..|a| - 1], d - 1)| == d - 1
  {}

  lemma SnocsAgree(x: seq<string>, p: string, y: seq<string>, q: string)
    requires |x| == |y|
    ensures x + [p] == y + [q] <==> x == y && p == q
  {
    assert (x + [p])[..|x|] == x && (y + [q])[..|y|] == y;
    assert (x + [p])[|x|] == p && (y + [q])[|y|] == q;
  }

  lemma {:induction false} CommonRun(a: seq<string>, b: seq<string>, d: nat)
    requires d <= |a| && d <= |b|
    ensures Tail(a, d) == Tail(b, d) <==> d <= Common(a, b)
    ensures Common(a, b) <= |a| && Common(a, b) <= |b|
  {
    if a != [] && b != [] {
      var a', b' := a[..|a| - 1], b[..|b| - 1];
      if d > 0 {
        CommonRun(a', b', d - 1);
        TailSnoc(a, d);
        TailSnoc(b, d);
        SnocsAgree(Tail(a', d - 1), a[|a| - 1], Tail(b', d - 1), b[|b| - 1]);
      } else {
        CommonRun(a', b', 0);
      }
    }
  }

  lemma {:induction false} CommonSymmetric(a: seq<string>, b: seq<string>)
    ensures Common(a, b) == Common(b, a)
  {
    if a != [] && b != [] { CommonSymmetric(a[..|a| - 1], b[..|b| - 1]); }
  }

  // ---- the closed form ----

  /** Another row has the very same path. */
  ghost predicate Locked(rows: seq<Row>, i: nat)
    requires i < |rows|
  {
    exists j :: 0 <= j < |rows| && j != i && rows[j].path == rows[i].path
  }

  /** How many trailing segments row `i` must outgrow because of row `j`. A locked row
      never leaves its basename, so it counts at most one. */
  ghost function Reach(rows: seq<Row>, i: nat, j: nat): nat
    requires i < |rows| && j < |rows|
  {
    var c := Common(SegmentsOf(rows[i].path), SegmentsOf(rows[j].path));
    if Locked(rows, j) then Min(1, c) else c
  }

  ghost function LongestUpTo(rows: seq<Row>, i: nat, n: nat): nat
    requires i < |rows| && n <= |rows|
  {
    if n == 0 then 0
    else
      var before := LongestUpTo(rows, i, n - 1);
      if n - 1 != i && Reach(rows, i, n - 1) > before then Reach(rows, i, n - 1) else before
  }

  ghost function Longest(rows: seq<Row>, i: nat): nat
    requires i < |rows|
  { LongestUpTo(rows, i, |rows|) }

  lemma {:induction false} LongestIsMax(rows: seq<Row>, i: nat, n: nat)
    requires i < |rows| && n <= |rows|
    ensures forall j :: 0 <= j < n && j != i ==> Reach(rows, i, j) <= LongestUpTo(rows, i, n)
    ensures LongestUpTo(rows, i, n) == 0 || exists j :: 0 <= j < n && j != i && Reach(rows, i, j) == LongestUpTo(rows, i, n)
  {
    if n > 0 { LongestIsMax(rows, i, n - 1); }
  }

  function MaxDepth(path: string): nat {
    if |SegmentsOf(path)| >= 1 then |SegmentsOf(path)| else 1
  }

  /** The depth the escalation ends with. */
  ghost function Depth(rows: seq<Row>, i: nat): nat
    requires i < |rows|
  {
    if Locked(rows, i) then 1 else Min(MaxDepth(rows[i].path), 1 + Longest(rows, i))
  }

  ghost predicate Tied(labels: seq<string>, i: nat)
    requires i < |labels|
  {
    exists j :: 0 <= j < |labels| && j != i && labels[j] == labels[i]
  }

  ghost function Candidates(rows: seq<Row>, depth: seq<nat>): seq<string>
    requires |depth| == |rows|
  {
    seq(|rows|, i requires 0 <= i < |rows| => CandidateAt(rows[i].path, depth[i]))
  }

  /** All rows have walked in step for `t` rounds. */
  ghost predicate InStep(rows: seq<Row>, depth: seq<nat>, t: nat) {
    |depth| == |rows| && forall i :: 0 <= i < |rows| ==> depth[i] == Min(Depth(rows, i), t + 1)
  }

  lemma DepthBounds(rows: seq<Row>, i: nat)
    requires i < |rows|
    ensures 1 <= Depth(rows, i) <= MaxDepth(rows[i].path)
  {}

  lemma ReachBound(rows: seq<Row>, i: nat, j: nat)
    requires i < |rows| && j < |rows| && i != j
    ensures Reach(rows, i, j) <= Longest(rows, i)
  {
    LongestIsMax(rows, i, |rows|);
  }

  lemma LongestReached(rows: seq<Row>, i: nat) returns (j: nat)
    requires i < |rows| && Longest(rows, i) > 0
    ensures j < |rows| && j != i && Reach(rows, i, j) == Longest(rows, i)
  {
    LongestIsMax(rows, i, |rows|);
    j :| 0 <= j < |rows| && j != i && Reach(rows, i, j) == Longest(rows, i);
  }

  /** The row that makes `i` walk furthest walks as far itself. */
  lemma NearestWalksToo(rows: seq<Row>, i: nat, j: nat, d: nat)
    requires i < |rows| && j < |rows| && i != j && !Locked(rows, i) && 1 <= d <= Reach(rows, i, j)
    ensures d <= Depth(rows, j) && d <= Common(SegmentsOf(rows[i].path), SegmentsOf(rows[j].path))
  {
    var a, b := SegmentsOf(rows[i].path), SegmentsOf(rows[j].path);
    CommonRun(a, b, 0);
    CommonSymmetric(a, b);
    if !Locked(rows, j) { ReachBound(rows, j, i); }
  }

  lemma SharedRunTies(rows: seq<Row>, depth: seq<nat>, i: nat, j: nat, d: nat)
    requires |depth| == |rows| && i < |rows| && j < |rows| && i != j && depth[i] == depth[j] == d
    requires 1 <= d <= Common(SegmentsOf(rows[i].path), SegmentsOf(rows[j].path))
    ensures Tied(Candidates(rows, depth), i)
  {
    var a, b := SegmentsOf(rows[i].path), SegmentsOf(rows[j].path);
    CommonRun(a, b, 0);
    CommonRun(a, b, d);
    SameCandidate(rows[i].path, d, rows[j].path, d);
    assert Candidates(rows, depth)[j] == Candidates(rows, depth)[i];
  }

  /** A row short of its final depth is tied with another row. */
  lemma ShortIsTied(rows: seq<Row>, depth: seq<nat>, t: nat, i: nat)
    requires InStep(rows, depth, t) && i < |rows| && depth[i] < Depth(rows, i)
    ensures Tied(Candidates(rows, depth), i)
  {
    var j := LongestReached(rows, i);
    NearestWalksToo(rows, i, j, t + 1);
    SharedRunTies(rows, depth, i, j, t + 1);
  }

  lemma DoneStandsApart(rows: seq<Row>, depth: seq<nat>, t: nat, i: nat, j: nat)
    requires InStep(rows, depth, t) && i < |rows| && j < |rows| && i != j && !Locked(rows, i)
    requires depth[i] == Depth(rows, i) < MaxDepth(rows[i].path)
    ensures CandidateAt(rows[j].path, depth[j]) != CandidateAt(rows[i].path, depth[i])
  {
    var a, b, d := SegmentsOf(rows[i].path), SegmentsOf(rows[j].path), depth[i];
    DepthBounds(rows, i);
    DepthBounds(rows, j);
    SameCandidate(rows[j].path, depth[j], rows[i].path, d);
    ReachBound(rows, i, j);
    if b != [] && Tail(b, depth[j]) == Tail(a, d) {
      assert |Tail(a, d)| == d && |Tail(b, depth[j])| == Min(depth[j], |b|);
      assert Tail(b, d) == Tail(b, depth[j]);
      CommonRun(a, b, d);
      assert false;
    }
  }

  /** A row that could still walk but has reached its final depth is tied with no one. */
  lemma DoneIsUntied(rows: seq<Row>, depth: seq<nat>, t: nat, i: nat)
    requires InStep(rows, depth, t) && i < |rows| && !Locked(rows, i)
    requires depth[i] == Depth(rows, i) < MaxDepth(rows[i].path)
    ensures !Tied(Candidates(rows, depth), i)
  {
    forall j | 0 <= j < |rows| && j != i ensures Candidates(rows, depth)[j] != Candidates(rows, depth)[i] {
      DoneStandsApart(rows, depth, t, i, j);
    }
  }

  // ---- shortenPaths ----

  ghost predicate Grouped(labels: seq<string>, n: nat, groups: map<string, seq<nat>>) {
    && n <= |labels|
    && (forall k :: k in groups ==> groups[k] != [])
    && (forall k, p :: k in groups && 0 <= p < |groups[k]| ==> groups[k][p] < n && labels[groups[k][p]] == k)
    && (forall k, p, q :: k in groups && 0 <= p < q < |groups[k]| ==> groups[k][p] < groups[k][q])
    && (forall i :: 0 <= i < n ==> labels[i] in groups && i in groups[labels[i]])
  }

  method GroupByLabel(labels: seq<string>) returns (groups: map<string, seq<nat>>)
    ensures Grouped(labels, |labels|, groups)
  {
    groups := map[];
    for i := 0 to |labels|
      invariant Grouped(labels, i, groups)
    {
      var cand := labels[i];
      ghost var before := groups;
      if cand in groups {
        groups := groups[cand := groups[cand] + [i]];
      } else {
        groups := groups[cand := [i]];
      }
      assert forall j :: 0 <= j < i ==> j in before[labels[j]];
    }
  }

  lemma GroupSize(labels: seq<string>, groups: map<string, seq<nat>>, i: nat)
    requires Grouped(labels, |labels|, groups) && i < |labels|
    ensures |groups[labels[i]]| > 1 <==> Tied(labels, i)
  {
    var g := groups[labels[i]];
    var p :| 0 <= p < |g| && g[p] == i;
    if |g| > 1 {
      var q := if p == 0 then 1 else 0;
      assert g[q] != i && labels[g[q]] == labels[i];
    }
    if j :| 0 <= j < |labels| && j != i && labels[j] == labels[i] {
      var q :| 0 <= q < |g| && g[q] == j;
    }
  }

  predicate MayClimb(locked: seq<bool>, maxDepth: seq<nat>, depth: seq<nat>, i: nat)
    requires i < |locked| == |maxDepth| == |depth|
  {
    !locked[i] && depth[i] < maxDepth[i]
  }

  ghost predicate Climbs(labels: seq<string>, locked: seq<bool>, maxDepth: seq<nat>, depth: seq<nat>, i: nat)
    requires i < |labels| == |locked| == |maxDepth| == |depth|
  {
    MayClimb(locked, maxDepth, depth, i) && Tied(labels, i)
  }

  /** One round: every tied row that may still walk moves up one segment. */
  method Escalate(labels: seq<string>, locked: seq<bool>, maxDepth: seq<nat>, depth: array<nat>) returns (changed: bool)
    requires |labels| == |locked| == |maxDepth| == depth.Length
    modifies depth
    ensures forall i :: 0 <= i < depth.Length ==>
              depth[i] == old(depth[i]) + if Climbs(labels, locked, maxDepth, old(depth[..]), i) then 1 else 0
    ensures changed <==> exists i :: 0 <= i < depth.Length && Climbs(labels, locked, maxDepth, old(depth[..]), i)
  {
    changed := false;
    var groups := GroupByLabel(labels);
    ghost var was := depth[..];
    var todo := groups.Keys;
    while todo != {}
      invariant todo <= groups.Keys
      invariant forall i :: 0 <= i < depth.Length && labels[i] in todo ==> depth[i] == was[i]
      invariant forall i :: 0 <= i < depth.Length && labels[i] !in todo ==>
                  depth[i] == was[i] + if Climbs(labels, locked, maxDepth, was, i) then 1 else 0
      invariant changed <==> exists i :: 0 <= i < depth.Length && labels[i] !in todo && Climbs(labels, locked, maxDepth, was, i)
      decreases todo
    {
      var key :| key in todo;
      todo := todo - {key};
      var moved := EscalateGroup(labels, locked, maxDepth, depth, groups, key);
      changed := changed || moved;
    }
  }

  lemma GroupMembers(labels: seq<string>, groups: map<string, seq<nat>>, key: string)
    requires Grouped(labels, |labels|, groups) && key in groups
    ensures forall i: nat :: i in groups[key] <==> i < |labels| && labels[i] == key
    ensures forall i: nat :: i < |labels| && labels[i] == key ==> (Tied(labels, i) <==> |groups[key]| > 1)
  {
    forall i: nat | i < |labels| && labels[i] == key ensures Tied(labels, i) <==> |groups[key]| > 1 {
      GroupSize(labels, groups, i);
    }
  }

  /** The rows that climb in a group: its free rows with room, when it has more than one. */
  lemma GroupClimbs(labels: seq<string>, locked: seq<bool>, maxDepth: seq<nat>, depth: seq<nat>,
                    groups: map<string, seq<nat>>, key: string)
    requires |labels| == |locked| == |maxDepth| == |depth| && Grouped(labels, |labels|, groups) && key in groups
    ensures forall i: nat :: i in groups[key] <==> i < |labels| && labels[i] == key
    ensures forall i: nat :: i < |labels| && labels[i] == key ==>
              (Climbs(labels, locked, maxDepth, depth, i) <==> |groups[key]| > 1 && MayClimb(locked, maxDepth, depth, i))
  {
    GroupMembers(labels, groups, key);
  }

  method EscalateGroup(labels: seq<string>, locked: seq<bool>, maxDepth: seq<nat>, depth: array<nat>,
                       groups: map<string, seq<nat>>, key: string) returns (changed: bool)
    requires |labels| == |locked| == |maxDepth| == depth.Length
    requires Grouped(labels, |labels|, groups) && key in groups
    modifies depth
    ensures forall i :: 0 <= i < depth.Length && labels[i] != key ==> depth[i] == old(depth[i])
    ensures forall i :: 0 <= i < depth.Length && labels[i] == key ==>
              depth[i] == old(depth[i]) + if Climbs(labels, locked, maxDepth, old(depth[..]), i) then 1 else 0
    ensures changed <==> exists i :: 0 <= i < depth.Length && labels[i] == key && Climbs(labels, locked, maxDepth, old(depth[..]), i)
  {
    changed := false;
    var idxs := groups[key];
    GroupClimbs(labels, locked, maxDepth, depth[..], groups, key);
    if |idxs| > 1 {
      changed := ClimbAll(locked, maxDepth, depth, idxs);
    }
  }

  /** Every listed row that may still walk moves up one segment. */
  method ClimbAll(locked: seq<bool>, maxDepth: seq<nat>, depth: array<nat>, idxs: seq<nat>) returns (changed: bool)
    requires |locked| == |maxDepth| == depth.Length
    requires forall p :: 0 <= p < |idxs| ==> idxs[p] < depth.Length
    requires forall p, q :: 0 <= p < q < |idxs| ==> idxs[p] < idxs[q]
    modifies depth
    ensures forall i :: 0 <= i < depth.Length ==>
              depth[i] == old(depth[i]) + if i in idxs && MayClimb(locked, maxDepth, old(depth[..]), i) then 1 else 0
    ensures changed <==> exists i :: i in idxs && MayClimb(locked, maxDepth, old(depth[..]), i)
  {
    changed := false;
    ghost var was := depth[..];
    for p := 0 to |idxs|
      invariant forall i :: 0 <= i < depth.Length ==>
                  depth[i] == was[i] + if i in idxs[..p] && MayClimb(locked, maxDepth, was, i) then 1 else 0
      invariant changed <==> exists i :: i in idxs[..p] && MayClimb(locked, maxDepth, was, i)
    {
      var i := idxs[p];
      assert i !in idxs[..p] && idxs[..p + 1] == idxs[..p] + [i];
      if !locked[i] && depth[i] < maxDepth[i] {
        depth[i] := depth[i] + 1;
        changed := true;
      }
    }
    assert idxs[..|idxs|] == idxs;
  }

  function Occurs(rows: seq<Row>, n: nat, path: string): nat
    requires n <= |rows|
  {
    if n == 0 then 0 else Occurs(rows, n - 1, path) + if rows[n - 1].path == path then 1 else 0
  }

  lemma {:induction false} OccursBefore(rows: seq<Row>, n: nat, path: string)
    requires n <= |rows|
    ensures Occurs(rows, n, path) > 0 <==> exists j :: 0 <= j < n && rows[j].path == path
    ensures Occurs(rows, n, path) > 1 <==> exists j, k :: 0 <= j < k < n && rows[j].path == path && rows[k].path == path
  {
    if n > 0 { OccursBefore(rows, n - 1, path); }
  }

  lemma LockedIsCounted(rows: seq<Row>, i: nat)
    requires i < |rows|
    ensures Occurs(rows, |rows|, rows[i].path) > 1 <==> Locked(rows, i)
  {
    OccursBefore(rows, |rows|, rows[i].path);
    if j :| 0 <= j < |rows| && j != i && rows[j].path == rows[i].path {
      assert if j < i then rows[j].path == rows[i].path else rows[i].path == rows[j].path;
    }
  }

  method FindLocked(rows: seq<Row>) returns (locked: seq<bool>)
    ensures |locked| == |rows| && forall i :: 0 <= i < |rows| ==> (locked[i] <==> Locked(rows, i))
  {
    var counts: map<string, nat> := map[];
    for i := 0 to |rows|
      invariant forall p :: p in counts ==> counts[p] == Occurs(rows, i, p)
      invariant forall p :: p !in counts ==> Occurs(rows, i, p) == 0
    {
      var p := rows[i].path;
      counts := counts[p := (if p in counts then counts[p] else 0) + 1];
    }
    locked := [];
    for i := 0 to |rows|
      invariant |locked| == i && forall k :: 0 <= k < i ==> (locked[k] <==> Locked(rows, k))
    {
      LockedIsCounted(rows, i);
      var p := rows[i].path;
      locked := locked + [p in counts && counts[p] > 1];
    }
  }

  ghost function DeepestUpTo(rows: seq<Row>, n: nat): nat
    requires n <= |rows|
  {
    if n == 0 then 0
    else
      var before := DeepestUpTo(rows, n - 1);
      if MaxDepth(rows[n - 1].path) > before then MaxDepth(rows[n - 1].path) else before
  }

  lemma {:induction false} DeepestIsMax(rows: seq<Row>, n: nat, i: nat)
    requires i < n <= |rows|
    ensures MaxDepth(rows[i].path) <= DeepestUpTo(rows, n)
  {
    if i < n - 1 { DeepestIsMax(rows, n - 1, i); }
  }

  /** One round of the loop keeps the rows in step, and changes nothing exactly when every
      row has reached its final depth. */
  lemma RoundKeepsStep(rows: seq<Row>, locked: seq<bool>, maxDepth: seq<nat>, depth: seq<nat>, t: nat, i: nat)
    requires InStep(rows, depth, t) && |locked| == |maxDepth| == |rows| && i < |rows|
    requires forall k :: 0 <= k < |rows| ==> (locked[k] <==> Locked(rows, k)) && maxDepth[k] == MaxDepth(rows[k].path)
    ensures Climbs(Candidates(rows, depth), locked, maxDepth, depth, i) <==> depth[i] < Depth(rows, i)
    ensures depth[i] < Depth(rows, i) ==> t + 1 < DeepestUpTo(rows, |rows|)
  {
    DepthBounds(rows, i);
    DeepestIsMax(rows, |rows|, i);
    if depth[i] < Depth(rows, i) {
      ShortIsTied(rows, depth, t, i);
    } else if !locked[i] && depth[i] < maxDepth[i] {
      DoneIsUntied(rows, depth, t, i);
    }
  }

  /** After a round in which exactly the climbing rows moved, either all rows are in step for
      one more round, or nothing moved and every row is at its final depth. */
  lemma RoundAdvances(rows: seq<Row>, locked: seq<bool>, maxDepth: seq<nat>, depth: seq<nat>, next: seq<nat>, t: nat)
    requires InStep(rows, depth, t) && |locked| == |maxDepth| == |next| == |rows|
    requires forall k :: 0 <= k < |rows| ==> (locked[k] <==> Locked(rows, k)) && maxDepth[k] == MaxDepth(rows[k].path)
    requires forall i :: 0 <= i < |rows| ==>
               next[i] == depth[i] + if Climbs(Candidates(rows, depth), locked, maxDepth, depth, i) then 1 else 0
    ensures if exists i :: 0 <= i < |rows| && Climbs(Candidates(rows, depth), locked, maxDepth, depth, i)
            then InStep(rows, next, t + 1) && t + 1 < DeepestUpTo(rows, |rows|)
            else next == depth == FinalDepths(rows)
  {
    RoundDecides(rows, locked, maxDepth, depth, t);
    var moves := exists i :: 0 <= i < |rows| && Climbs(Candidates(rows, depth), locked, maxDepth, depth, i);
    forall i | 0 <= i < |rows|
      ensures next[i] == Min(Depth(rows, i), t + 2)
      ensures !moves ==> next[i] == depth[i] == Depth(rows, i)
    {
      assert Climbs(Candidates(rows, depth), locked, maxDepth, depth, i) <==> depth[i] < Depth(rows, i);
      OneRowAdvances(Depth(rows, i), depth[i], next[i], t);
    }
    if !moves { AllDone(rows, depth, next); }
  }

  lemma OneRowAdvances(final: nat, depth: nat, next: nat, t: nat)
    requires depth == Min(final, t + 1) && next == depth + if depth < final then 1 else 0
    ensures next == Min(final, t + 2) && (depth >= final ==> next == depth == final)
  {}

  lemma AllDone(rows: seq<Row>, depth: seq<nat>, next: seq<nat>)
    requires |rows| == |depth| == |next| && forall i :: 0 <= i < |rows| ==> next[i] == depth[i] == Depth(rows, i)
    ensures next == depth == FinalDepths(rows)
  {}

  lemma RoundDecides(rows: seq<Row>, locked: seq<bool>, maxDepth: seq<nat>, depth: seq<nat>, t: nat)
    requires InStep(rows, depth, t) && |locked| == |maxDepth| == |rows|
    requires forall k :: 0 <= k < |rows| ==> (locked[k] <==> Locked(rows, k)) && maxDepth[k] == MaxDepth(rows[k].path)
    ensures forall i :: 0 <= i < |rows| ==> (Climbs(Candidates(rows, depth), locked, maxDepth, depth, i) <==> depth[i] < Depth(rows, i))
    ensures forall i :: 0 <= i < |rows| && Climbs(Candidates(rows, depth), locked, maxDepth, depth, i) ==> t + 1 < DeepestUpTo(rows, |rows|)
  {
    forall i | 0 <= i < |rows|
      ensures Climbs(Candidates(rows, depth), locked, maxDepth, depth, i) <==> depth[i] < Depth(rows, i)
      ensures depth[i] < Depth(rows, i) ==> t + 1 < DeepestUpTo(rows, |rows|)
    {
      RoundKeepsStep(rows, locked, maxDepth, depth, t, i);
    }
  }

  ghost function FinalDepths(rows: seq<Row>): seq<nat> { seq(|rows|, i requires 0 <= i < |rows| => Depth(rows, i)) }

  /** The labels before any machine is appended: the closed form. */
  ghost function PlainLabels(rows: seq<Row>): seq<string> { Candidates(rows, FinalDepths(rows)) }

  ghost function LabelOf(rows: seq<Row>, i: nat): string
    requires i < |rows|
  {
    var plain := PlainLabels(rows);
    if Tied(plain, i) && rows[i].machine != "" then plain[i] + " (" + rows[i].machine + ")" else plain[i]
  }

  method LabelsAt(rows: seq<Row>, depth: array<nat>) returns (labels: seq<string>)
    requires depth.Length == |rows|
    ensures labels == Candidates(rows, depth[..])
  {
    labels := [];
    for i := 0 to |rows|
      invariant labels == Candidates(rows, depth[..])[..i]
    {
      labels := labels + [CandidateAt(rows[i].path, depth[i])];
    }
  }

  /** The escalation loop arrives at the closed form. */
  method EscalateAll(rows: seq<Row>) returns (labels: seq<string>)
    ensures labels == PlainLabels(rows)
  {
    var depth := new nat[|rows|](_ => 1);
    var maxDepth := seq(|rows|, i requires 0 <= i < |rows| => MaxDepth(rows[i].path));
    var locked := FindLocked(rows);
    forall i | 0 <= i < |rows| ensures Depth(rows, i) >= 1 { DepthBounds(rows, i); }
    var changed := true;
    ghost var t := 0;
    while changed
      invariant InStep(rows, depth[..], t)
      invariant t > 0 ==> t < DeepestUpTo(rows, |rows|)
      invariant !changed ==> depth[..] == FinalDepths(rows)
      decreases DeepestUpTo(rows, |rows|) - t, changed
    {
      var cands := LabelsAt(rows, depth);
      ghost var was := depth[..];
      changed := Escalate(cands, locked, maxDepth, depth);
      RoundAdvances(rows, locked, maxDepth, was, depth[..], t);
      if changed { t := t + 1; }
    }
    labels := LabelsAt(rows, depth);
  }

  method ShortenPaths(rows: seq<Row>) returns (out: seq<Shown>)
    ensures |out| == |rows|
    ensures forall i :: 0 <= i < |rows| ==> out[i] == Shown(rows[i].path, rows[i].machine, LabelOf(rows, i), rows[i].path)
  {
    var plain := EscalateAll(rows);
    var groups := GroupByLabel(plain);
    out := [];
    for i := 0 to |rows|
      invariant |out| == i
      invariant forall k :: 0 <= k < i ==> out[k] == Shown(rows[k].path, rows[k].machine, LabelOf(rows, k), rows[k].path)
    {
      GroupSize(plain, groups, i);
      var text := if |groups[plain[i]]| > 1 && rows[i].machine != "" then plain[i] + " (" + rows[i].machine + ")" else plain[i];
      out := out + [Shown(rows[i].path, rows[i].machine, text, rows[i].path)];
    }
  }

  // ---- what the labels promise ----

  lemma PlainLabelShape(rows: seq<Row>, i: nat)
    requires i < |rows|
    ensures PlainLabels(rows)[i] == CandidateAt(rows[i].path, Depth(rows, i))
    ensures SegmentsOf(rows[i].path) != [] ==>
              SegmentsOf(PlainLabels(rows)[i]) == Tail(SegmentsOf(rows[i].path), Depth(rows, i))
  {
    SegmentsAreSegments(rows[i].path);
    SegmentsOfJoin(Tail(SegmentsOf(rows[i].path), Depth(rows, i)));
  }

  /** The label before suffixes, spelled out: between its slashes stand the last segments of the
      path, as many as the depth; a path without segments is its own label. */
  lemma PlainLabelSpelled(rows: seq<Row>, i: nat)
    requires i < |rows|
    ensures SegmentsOf(rows[i].path) == [] ==> PlainLabels(rows)[i] == rows[i].path
    ensures SegmentsOf(rows[i].path) != [] ==>
              var segs, shown := SegmentsOf(rows[i].path), SplitSlash(PlainLabels(rows)[i]);
              |shown| == Depth(rows, i) <= |segs| && forall k :: 0 <= k < |shown| ==> shown[k] == segs[|segs| - |shown| + k]
  {
    PlainLabelShape(rows, i);
    DepthBounds(rows, i);
    var segs := SegmentsOf(rows[i].path);
    SegmentsAreSegments(rows[i].path);
    if segs != [] { JoinSplits(Tail(segs, Depth(rows, i))); }
  }

  /** One path on two machines: each row shows the basename and, if it names one, its machine. */
  lemma TwinsShowMachine(x: string, b: string, m: string, n: string)
    requires IsSegment(x) && IsSegment(b)
    ensures var rows := [Row(x + "/" + b, m), Row(x + "/" + b, n)];
            LabelOf(rows, 0) == if m == "" then b else b + " (" + m + ")"
  {
    var rows := [Row(x + "/" + b, m), Row(x + "/" + b, n)];
    TwoSegments(x, b);
    assert rows[1].path == rows[0].path;
    assert Locked(rows, 0);
    PlainLabelShape(rows, 0);
    assert Tail([x, b], 1) == [b];
    SamePathSameLabel(rows, 0, 1);
    assert Tied(PlainLabels(rows), 0);
  }

  function Basename(path: string): string
    requires SegmentsOf(path) != []
  { SegmentsOf(path)[|SegmentsOf(path)| - 1] }

  /** When two labels coincide before machines are appended, exactly. Same path; or same segments, both rows
      free; or same basename, both rows locked, or one locked and the other a bare
      basename. The source's comments name the first case only. */
  ghost predicate Clash(rows: seq<Row>, i: nat, j: nat)
    requires i < |rows| && j < |rows|
  {
    var a, b := SegmentsOf(rows[i].path), SegmentsOf(rows[j].path);
    rows[i].path == rows[j].path ||
    (a != [] && b != [] && Basename(rows[i].path) == Basename(rows[j].path) &&
     (if Locked(rows, i) then Locked(rows, j) || |b| == 1
      else if Locked(rows, j) then |a| == 1
      else a == b))
  }

  lemma OneSegment(rows: seq<Row>, i: nat, j: nat)
    requires i < |rows| && j < |rows| && i != j && !Locked(rows, i) && Locked(rows, j)
    requires SegmentsOf(rows[i].path) != [] && SegmentsOf(rows[j].path) != []
    ensures PlainLabels(rows)[i] == PlainLabels(rows)[j] <==>
              Basename(rows[i].path) == Basename(rows[j].path) && |SegmentsOf(rows[i].path)| == 1
  {
    var a, b := SegmentsOf(rows[i].path), SegmentsOf(rows[j].path);
    PlainLabelShape(rows, i);
    PlainLabelShape(rows, j);
    DepthBounds(rows, i);
    SameCandidate(rows[i].path, Depth(rows, i), rows[j].path, 1);
    ReachBound(rows, i, j);
    CommonRun(a, b, 1);
    assert Tail(b, 1) == [Basename(rows[j].path)] && Tail(a, 1) == [Basename(rows[i].path)];
    assert |Tail(a, Depth(rows, i))| == Depth(rows, i);
  }

  lemma BothFree(rows: seq<Row>, i: nat, j: nat)
    requires i < |rows| && j < |rows| && i != j && !Locked(rows, i) && !Locked(rows, j)
    requires SegmentsOf(rows[i].path) != [] && SegmentsOf(rows[j].path) != []
    ensures PlainLabels(rows)[i] == PlainLabels(rows)[j] <==> SegmentsOf(rows[i].path) == SegmentsOf(rows[j].path)
  {
    var a, b, di, dj := SegmentsOf(rows[i].path), SegmentsOf(rows[j].path), Depth(rows, i), Depth(rows, j);
    PlainLabelShape(rows, i);
    PlainLabelShape(rows, j);
    DepthBounds(rows, i);
    DepthBounds(rows, j);
    SameCandidate(rows[i].path, di, rows[j].path, dj);
    ReachBound(rows, i, j);
    ReachBound(rows, j, i);
    CommonSymmetric(a, b);
    assert Tail(a, |a|) == a && Tail(b, |b|) == b;
    if a == b { CommonRun(a, b, |a|); }
    if Tail(a, di) == Tail(b, dj) {
      assert |Tail(a, di)| == di && |Tail(b, dj)| == dj;
      CommonRun(a, b, di);
    }
  }

  lemma BothLocked(rows: seq<Row>, i: nat, j: nat)
    requires i < |rows| && j < |rows| && Locked(rows, i) && Locked(rows, j)
    requires SegmentsOf(rows[i].path) != [] && SegmentsOf(rows[j].path) != []
    ensures PlainLabels(rows)[i] == PlainLabels(rows)[j] <==> Basename(rows[i].path) == Basename(rows[j].path)
  {
    var a, b := SegmentsOf(rows[i].path), SegmentsOf(rows[j].path);
    PlainLabelShape(rows, i);
    PlainLabelShape(rows, j);
    SameCandidate(rows[i].path, 1, rows[j].path, 1);
    assert Tail(b, 1) == [Basename(rows[j].path)] && Tail(a, 1) == [Basename(rows[i].path)];
  }

  lemma NoSegments(rows: seq<Row>, i: nat, j: nat)
    requires i < |rows| && j < |rows| && (SegmentsOf(rows[i].path) == [] || SegmentsOf(rows[j].path) == [])
    ensures PlainLabels(rows)[i] == PlainLabels(rows)[j] <==> rows[i].path == rows[j].path
  {
    PlainLabelShape(rows, i);
    PlainLabelShape(rows, j);
    DepthBounds(rows, i);
    DepthBounds(rows, j);
    SameCandidate(rows[i].path, Depth(rows, i), rows[j].path, Depth(rows, j));
  }

  lemma SamePathSameLabel(rows: seq<Row>, i: nat, j: nat)
    requires i < |rows| && j < |rows| && i != j && rows[i].path == rows[j].path
    ensures PlainLabels(rows)[i] == PlainLabels(rows)[j]
  {
    assert Locked(rows, i) && Locked(rows, j);
    PlainLabelShape(rows, i);
    PlainLabelShape(rows, j);
  }

  /** Two labels coincide before machines are appended if and only if the paths clash. */
  lemma LabelsTieExactly(rows: seq<Row>, i: nat, j: nat)
    requires i < |rows| && j < |rows| && i != j
    ensures PlainLabels(rows)[i] == PlainLabels(rows)[j] <==> Clash(rows, i, j)
  {
    if rows[i].path == rows[j].path {
      SamePathSameLabel(rows, i, j);
    } else if SegmentsOf(rows[i].path) == [] || SegmentsOf(rows[j].path) == [] {
      NoSegments(rows, i, j);
    } else if Locked(rows, i) && Locked(rows, j) {
      BothLocked(rows, i, j);
    } else if Locked(rows, j) {
      OneSegment(rows, i, j);
    } else if Locked(rows, i) {
      OneSegment(rows, j, i);
    } else {
      BothFree(rows, i, j);
    }
  }

  // ---- final labels ----

  function Mark(machine: string): string { " (" + machine + ")" }

  /** The row's label gets its machine appended: its path clashes with another row's. */
  ghost predicate Marked(rows: seq<Row>, i: nat)
    requires i < |rows|
  {
    rows[i].machine != "" && exists k :: 0 <= k < |rows| && k != i && Clash(rows, i, k)
  }

  lemma MarkedIsTied(rows: seq<Row>, i: nat)
    requires i < |rows|
    ensures Marked(rows, i) <==> rows[i].machine != "" && Tied(PlainLabels(rows), i)
    ensures LabelOf(rows, i) == PlainLabels(rows)[i] + if Marked(rows, i) then Mark(rows[i].machine) else ""
  {
    forall k | 0 <= k < |rows| && k != i ensures Clash(rows, i, k) <==> PlainLabels(rows)[k] == PlainLabels(rows)[i] {
      LabelsTieExactly(rows, i, k);
    }
  }

  /** `a` marked with `m` and `b` marked with `n` are one text, `b` reaching into m's mark. */
  ghost predicate Overhangs(a: string, m: string, b: string, n: string) {
    exists mid: string :: m == mid + " (" + n && b == a + " (" + mid
  }

  /** The machine appended to row `i` spells out, wholly or in part, what row `j`'s own path
      shows: as in "b" on machine "m" beside the path "b (m)". */
  ghost predicate Spills(rows: seq<Row>, i: nat, j: nat)
    requires i < |rows| && j < |rows|
  {
    var a, b := PlainLabels(rows)[i], PlainLabels(rows)[j];
    && Marked(rows, i)
    && if Marked(rows, j) then Overhangs(a, rows[i].machine, b, rows[j].machine) else b == a + Mark(rows[i].machine)
  }

  lemma MarksOverlap(a: string, m: string, b: string, n: string)
    requires a + Mark(m) == b + Mark(n) && |a| < |b|
    ensures Overhangs(a, m, b, n)
  {
    var whole, x := a + Mark(m), b[|a|..];
    assert whole[..|b|] == b && whole[|b|..] == Mark(n) && whole[|a|..] == Mark(m);
    assert Mark(m) == x + Mark(n);
    assert x[0] == Mark(m)[0] == ' ' && Mark(m)[1] == '(';
    assert (x + Mark(n))[|x|] == ' ';
    assert |x| >= 2 && x[1] == '(';
    var mid := x[2..];
    assert x == " (" + mid && b == a + x;
    assert Mark(m)[2..|Mark(m)| - 1] == m;
    assert (x + Mark(n))[2..|x + Mark(n)| - 1] == mid + " (" + n;
    assert m == mid + " (" + n && b == a + " (" + mid;
  }

  lemma OverlapMarks(a: string, m: string, b: string, n: string)
    requires Overhangs(a, m, b, n)
    ensures a + Mark(m) == b + Mark(n)
  {
    var mid: string :| m == mid + " (" + n && b == a + " (" + mid;
    assert a + (" (" + (mid + " (" + n) + ")") == (a + " (" + mid) + (" (" + n + ")");
  }

  lemma MarksAgree(a: string, m: string, b: string, n: string)
    requires a != b
    ensures a + Mark(m) == b + Mark(n) <==> Overhangs(a, m, b, n) || Overhangs(b, n, a, m)
  {
    if a + Mark(m) == b + Mark(n) {
      assert (a + Mark(m))[..|a|] == a && (b + Mark(n))[..|b|] == b;
      if |a| < |b| { MarksOverlap(a, m, b, n); } else if |b| < |a| { MarksOverlap(b, n, a, m); }
    }
    if Overhangs(a, m, b, n) { OverlapMarks(a, m, b, n); }
    if Overhangs(b, n, a, m) { OverlapMarks(b, n, a, m); }
  }

  lemma BothMarked(rows: seq<Row>, i: nat, j: nat)
    requires i < |rows| && j < |rows| && Marked(rows, i) && Marked(rows, j) && PlainLabels(rows)[i] != PlainLabels(rows)[j]
    ensures LabelOf(rows, i) == LabelOf(rows, j) <==> Spills(rows, i, j) || Spills(rows, j, i)
  {
    MarkedIsTied(rows, i);
    MarkedIsTied(rows, j);
    MarksAgree(PlainLabels(rows)[i], rows[i].machine, PlainLabels(rows)[j], rows[j].machine);
  }

  /** Two final labels coincide if and only if the paths clash and the machines agree, or the
      paths do not clash but one row's appended machine spells out what the other's path shows. */
  lemma FinalLabelsTieExactly(rows: seq<Row>, i: nat, j: nat)
    requires i < |rows| && j < |rows| && i != j
    ensures LabelOf(rows, i) == LabelOf(rows, j) <==>
              if Clash(rows, i, j) then rows[i].machine == rows[j].machine else Spills(rows, i, j) || Spills(rows, j, i)
  {
    LabelsTieExactly(rows, i, j);
    MarkedIsTied(rows, i);
    MarkedIsTied(rows, j);
    if Clash(rows, i, j) {
      LabelsTieExactly(rows, j, i);
      SameMark(PlainLabels(rows)[i], rows[i].machine, rows[j].machine);
    } else if Marked(rows, i) && Marked(rows, j) {
      BothMarked(rows, i, j);
    }
  }

  lemma SameMark(a: string, m: string, n: string)
    ensures a + (if m != "" then Mark(m) else "") == a + (if n != "" then Mark(n) else "") <==> m == n
  {
    var x, y := if m != "" then Mark(m) else "", if n != "" then Mark(n) else "";
    assert (a + x)[|a|..] == x && (a + y)[|a|..] == y;
    if x == y && m != "" {
      assert Mark(m)[2..|Mark(m)| - 1] == m && |n| == |m|;
      assert Mark(n)[2..|Mark(n)| - 1] == n;
    }
  }

  /** Nothing in `s` looks like the start of an appended machine. */
  predicate NoMarkLike(s: string) { forall k :: 0 <= k < |s| - 1 ==> !(s[k] == ' ' && s[k + 1] == '(') }

  lemma {:induction false} PartsHaveNoMark(s: string)
    requires NoMarkLike(s)
    ensures forall p :: p in SplitSlash(s) ==> NoMarkLike(p)
    ensures SplitSlash(s)[0] != "" ==> s != "" && SplitSlash(s)[0][0] == s[0]
  {
    if s != "" {
      assert forall k :: 0 <= k < |s[1..]| ==> s[1..][k] == s[k + 1];
      PartsHaveNoMark(s[1..]);
      if s[0] != '/' {
        var rest := SplitSlash(s[1..]);
        var head := [s[0]] + rest[0];
        assert rest[0] in rest;
        assert NoMarkLike(head) by {
          forall k | 0 <= k < |head| - 1 ensures !(head[k] == ' ' && head[k + 1] == '(') {
            if k > 0 { assert head[k] == rest[0][k - 1] && head[k + 1] == rest[0][k]; }
          }
        }
      }
    }
  }

  lemma {:induction false} JoinHasNoMark(segs: seq<string>)
    requires forall p :: p in segs ==> NoMarkLike(p)
    ensures NoMarkLike(Join(segs))
  {
    if |segs| > 1 {
      JoinHasNoMark(segs[1..]);
      var head, tail := segs[0], Join(segs[1..]);
      var whole := head + "/" + tail;
      assert whole == Join(segs) && head in segs;
      forall k | 0 <= k < |whole| - 1 ensures !(whole[k] == ' ' && whole[k + 1] == '(') {
        if k + 1 < |head| {
          assert whole[k] == head[k] && whole[k + 1] == head[k + 1];
        } else if k > |head| {
          assert whole[k] == tail[k - |head| - 1] && whole[k + 1] == tail[k - |head|];
        } else {
          assert whole[|head|] == '/';
        }
      }
    }
  }

  lemma {:induction false} NonEmptyOf(parts: seq<string>)
    ensures forall p :: p in NonEmpty(parts) ==> p in parts
  {
    if parts != [] { NonEmptyOf(parts[1..]); }
  }

  lemma PlainHasNoMark(rows: seq<Row>, i: nat)
    requires i < |rows| && NoMarkLike(rows[i].path)
    ensures NoMarkLike(PlainLabels(rows)[i])
  {
    var segs := SegmentsOf(rows[i].path);
    PlainLabelShape(rows, i);
    PartsHaveNoMark(rows[i].path);
    NonEmptyOf(SplitSlash(rows[i].path));
    JoinHasNoMark(Tail(segs, Depth(rows, i)));
  }

  lemma MarkLike(a: string, rest: string)
    ensures !NoMarkLike(a + " (" + rest)
  {
    var s := a + " (" + rest;
    assert s[|a|] == ' ' && s[|a| + 1] == '(';
  }

  lemma NoSpill(rows: seq<Row>, i: nat, j: nat)
    requires i < |rows| && j < |rows| && NoMarkLike(rows[j].path)
    ensures !Spills(rows, i, j)
  {
    PlainHasNoMark(rows, j);
    var a, m, n := PlainLabels(rows)[i], rows[i].machine, rows[j].machine;
    if mid: string :| m == mid + " (" + n && PlainLabels(rows)[j] == a + " (" + mid { MarkLike(a, mid); }
    MarkLike(a, m + ")");
    assert a + Mark(m) == a + " (" + (m + ")");
  }

  /** When no path contains " (", two final labels coincide exactly for clashing paths on one
      machine. */
  lemma CleanPathsTieExactly(rows: seq<Row>, i: nat, j: nat)
    requires i < |rows| && j < |rows| && i != j && NoMarkLike(rows[i].path) && NoMarkLike(rows[j].path)
    ensures LabelOf(rows, i) == LabelOf(rows, j) <==> Clash(rows, i, j) && rows[i].machine == rows[j].machine
  {
    FinalLabelsTieExactly(rows, i, j);
    NoSpill(rows, i, j);
    NoSpill(rows, j, i);
  }

  /** A family of paths that do not clash and still end with one label: "b" on machine "m",
      told apart from its twin on another machine, beside a path ending in "b (m)". */
  lemma MarkSpells(x: string, y: string, b: string, m: string, n: string, k: string)
    requires IsSegment(x) && IsSegment(y) && IsSegment(b) && IsSegment(m)
    ensures var rows := [Row(x + "/" + b, m), Row(x + "/" + b, n), Row(y + "/" + (b + Mark(m)), k)];
            rows[0].path != rows[2].path && !Clash(rows, 0, 2) && Spills(rows, 0, 2) && LabelOf(rows, 0) == LabelOf(rows, 2)
  {
    var marked := b + Mark(m);
    var rows := [Row(x + "/" + b, m), Row(x + "/" + b, n), Row(y + "/" + marked, k)];
    assert |marked| > |b|;
    TwoSegments(x, b);
    TwoSegments(y, marked);
    assert rows[0].path != rows[2].path;
    MarkedPair(rows, x, y, b, marked);
    MarkedIsTied(rows, 0);
    FinalLabelsTieExactly(rows, 0, 2);
  }

  lemma MarkedPair(rows: seq<Row>, x: string, y: string, b: string, c: string)
    requires |rows| == 3 && rows[0].path == rows[1].path != rows[2].path && b != c && rows[0].machine != ""
    requires SegmentsOf(rows[0].path) == [x, b] && SegmentsOf(rows[2].path) == [y, c]
    ensures PlainLabels(rows)[0] == b && PlainLabels(rows)[2] == c
    ensures Marked(rows, 0) && !Marked(rows, 2) && !Clash(rows, 0, 2)
  {
    assert Locked(rows, 0) && Locked(rows, 1) && !Locked(rows, 2);
    assert Clash(rows, 0, 1);
    PlainLabelShape(rows, 0);
    PlainLabelShape(rows, 2);
    LongestIsMax(rows, 2, 3);
    assert Reach(rows, 2, 0) == 0 && Reach(rows, 2, 1) == 0;
    assert Depth(rows, 2) == 1;
    assert Tail([x, b], 1) == [b] && Tail([y, c], 1) == [c];
  }

  /** The source expects rows still tied after escalation to have the same path. Two
      families where they do not: a leading slash ... */
  lemma LeadingSlashTies(path: string, m: string)
    requires SegmentsOf(path) != []
    ensures var rows := [Row("/" + path, m), Row(path, m)];
            rows[0].path != rows[1].path && PlainLabels(rows)[0] == PlainLabels(rows)[1] && LabelOf(rows, 0) == LabelOf(rows, 1)
  {
    LeadingSlashSegments(path);
    SameSegmentsTie("/" + path, path, m);
  }

  lemma SameSegmentsTie(p: string, q: string, m: string)
    requires SegmentsOf(p) == SegmentsOf(q) != [] && p != q
    ensures var rows := [Row(p, m), Row(q, m)];
            PlainLabels(rows)[0] == PlainLabels(rows)[1] && LabelOf(rows, 0) == LabelOf(rows, 1)
  {
    var rows := [Row(p, m), Row(q, m)];
    LabelsTieExactly(rows, 0, 1);
    assert !Locked(rows, 0) && !Locked(rows, 1);
    assert Tied(PlainLabels(rows), 0) && Tied(PlainLabels(rows), 1);
  }

  lemma LeadingSlashSegments(path: string)
    ensures "/" + path != path && SegmentsOf("/" + path) == SegmentsOf(path)
  {
    assert |"/" + path| == |path| + 1;
    assert ("/" + path)[1..] == path;
    assert SplitSlash("/" + path) == [""] + SplitSlash(path);
    assert ([""] + SplitSlash(path))[1..] == SplitSlash(path);
  }

  /** ... and two pairs of duplicated paths with one basename, which stay at the basename
      and even share the machine suffix. */
  lemma LockedPairsTie(x: string, y: string, b: string, m: string, n: string)
    requires IsSegment(x) && IsSegment(y) && IsSegment(b) && x != y
    ensures var rows := PairedRows(x, y, b, m, n);
            rows[0].path != rows[2].path && PlainLabels(rows)[0] == PlainLabels(rows)[2] == b && LabelOf(rows, 0) == LabelOf(rows, 2)
  {
    var rows := PairedRows(x, y, b, m, n);
    TwoSegments(x, b);
    TwoSegments(y, b);
    assert rows[1].path == rows[0].path && rows[3].path == rows[2].path;
    assert Locked(rows, 0) && Locked(rows, 2);
    LabelsTieExactly(rows, 0, 2);
    assert Tail([x, b], 1) == [b];
    assert Tied(PlainLabels(rows), 0) && Tied(PlainLabels(rows), 2);
  }

  function PairedRows(x: string, y: string, b: string, m: string, n: string): seq<Row> {
    [Row(x + "/" + b, m), Row(x + "/" + b, n), Row(y + "/" + b, m), Row(y + "/" + b, n)]
  }

  lemma TwoSegments(a: string, b: string)
    requires IsSegment(a) && IsSegment(b)
    ensures SegmentsOf(a + "/" + b) == [a, b]
  {
    assert Join([a, b]) == a + "/" + b;
    SegmentsOfJoin([a, b]);
  }

  /** When no two paths have the same segments, all labels differ and none carries a machine. */
  lemma DistinctSegmentsDistinctLabels(rows: seq<Row>)
    requires forall i, j :: 0 <= i < j < |rows| ==> SegmentsOf(rows[i].path) != SegmentsOf(rows[j].path)
    ensures forall i, j :: 0 <= i < j < |rows| ==> LabelOf(rows, i) != LabelOf(rows, j)
    ensures forall i :: 0 <= i < |rows| ==> LabelOf(rows, i) == PlainLabels(rows)[i]
  {
    forall i, j | 0 <= i < |rows| && 0 <= j < |rows| && i != j
      ensures rows[i].path != rows[j].path
    {
      assert SegmentsOf(rows[i].path) != SegmentsOf(rows[j].path);
    }
    forall i, j | 0 <= i < |rows| && 0 <= j < |rows| && i != j
      ensures PlainLabels(rows)[i] != PlainLabels(rows)[j]
    {
      LabelsTieExactly(rows, i, j);
    }
  }

  /** No free row walked further than it had to: at any smaller depth its candidate is
      also a trailing run of another row. */
  lemma NoShorterLabel(rows: seq<Row>, i: nat, d: nat)
    requires i < |rows| && !Locked(rows, i) && 1 <= d < Depth(rows, i)
    ensures exists j :: 0 <= j < |rows| && j != i && SegmentsOf(rows[j].path) != []
                     && CandidateAt(rows[j].path, d) == CandidateAt(rows[i].path, d)
  {
    LongestIsMax(rows, i, |rows|);
    var j :| 0 <= j < |rows| && j != i && Reach(rows, i, j) == Longest(rows, i);
    var a, b := SegmentsOf(rows[i].path), SegmentsOf(rows[j].path);
    CommonRun(a, b, 0);
    CommonRun(a, b, d);
    SameCandidate(rows[j].path, d, rows[i].path, d);
  }

  // ---- independence of row order ----

  ghost predicate SameRows(a: seq<Row>, b: seq<Row>) { multiset(a) == multiset(b) }

  /** A row of one listing is found in any other listing of the same rows. */
  lemma Elsewhere(a: seq<Row>, b: seq<Row>, k: nat) returns (l: nat)
    requires SameRows(a, b) && k < |a|
    ensures l < |b| && b[l] == a[k]
  {
    assert a[k] in multiset(a);
    assert a[k] in multiset(b);
    l :| 0 <= l < |b| && b[l] == a[k];
  }

  lemma TwiceCounted(a: seq<Row>, i: nat, j: nat)
    requires i < j < |a| && a[i] == a[j]
    ensures multiset(a)[a[i]] >= 2
  {
    assert a == a[..i] + [a[i]] + a[i + 1..j] + [a[j]] + a[j + 1..];
  }

  /** Two rows of one listing, at different places, are found at different places of the other. */
  lemma ElsewhereApart(a: seq<Row>, b: seq<Row>, i: nat, k: nat, j: nat) returns (l: nat)
    requires SameRows(a, b) && i < |a| && k < |a| && i != k && j < |b| && b[j] == a[i]
    ensures l < |b| && l != j && b[l] == a[k]
  {
    if a[k] != a[i] {
      l := Elsewhere(a, b, k);
    } else {
      TwiceCounted(a, if i < k then i else k, if i < k then k else i);
      assert b == b[..j] + [b[j]] + b[j + 1..];
      assert multiset(b) == multiset(b[..j]) + multiset{b[j]} + multiset(b[j + 1..]);
      if b[j] in b[..j] {
        l :| 0 <= l < j && b[l] == b[j];
      } else {
        assert multiset(b[..j])[b[j]] == 0;
        assert b[j] in multiset(b[j + 1..]);
        var m :| 0 <= m < |b[j + 1..]| && b[j + 1..][m] == b[j];
        l := j + 1 + m;
      }
    }
  }

  lemma LockedElsewhere(a: seq<Row>, b: seq<Row>, i: nat, j: nat)
    requires SameRows(a, b) && i < |a| && j < |b| && a[i].path == b[j].path && Locked(a, i)
    ensures Locked(b, j)
  {
    var k :| 0 <= k < |a| && k != i && a[k].path == a[i].path;
    var i' := Elsewhere(a, b, i);
    var k' := ElsewhereApart(a, b, i, k, i');
    assert if i' != j then b[i'].path == b[j].path else b[k'].path == b[j].path;
  }

  lemma LongestElsewhere(a: seq<Row>, b: seq<Row>, i: nat, j: nat)
    requires SameRows(a, b) && i < |a| && j < |b| && a[i] == b[j]
    ensures Longest(a, i) <= Longest(b, j)
  {
    LongestIsMax(a, i, |a|);
    if Longest(a, i) > 0 {
      var k :| 0 <= k < |a| && k != i && Reach(a, i, k) == Longest(a, i);
      var l := ElsewhereApart(a, b, i, k, j);
      if Locked(b, l) { LockedElsewhere(b, a, l, k); }
      ReachBound(b, j, l);
    }
  }

  lemma PlainElsewhere(a: seq<Row>, b: seq<Row>, i: nat, j: nat)
    requires SameRows(a, b) && i < |a| && j < |b| && a[i] == b[j]
    ensures PlainLabels(a)[i] == PlainLabels(b)[j]
  {
    if Locked(a, i) { LockedElsewhere(a, b, i, j); }
    if Locked(b, j) { LockedElsewhere(b, a, j, i); }
    LongestElsewhere(a, b, i, j);
    LongestElsewhere(b, a, j, i);
    PlainLabelShape(a, i);
    PlainLabelShape(b, j);
  }

  lemma TiedElsewhere(a: seq<Row>, b: seq<Row>, i: nat, j: nat)
    requires SameRows(a, b) && i < |a| && j < |b| && a[i] == b[j] && Tied(PlainLabels(a), i)
    ensures Tied(PlainLabels(b), j)
  {
    var k :| 0 <= k < |a| && k != i && PlainLabels(a)[k] == PlainLabels(a)[i];
    var l := ElsewhereApart(a, b, i, k, j);
    PlainElsewhere(a, b, i, j);
    PlainElsewhere(a, b, k, l);
  }

  /** A row gets the same label in whatever order the rows are listed. */
  lemma OrderDoesNotMatter(a: seq<Row>, b: seq<Row>, i: nat, j: nat)
    requires SameRows(a, b) && i < |a| && j < |b| && a[i] == b[j]
    ensures LabelOf(a, i) == LabelOf(b, j)
  {
    PlainElsewhere(a, b, i, j);
    if Tied(PlainLabels(a), i) { TiedElsewhere(a, b, i, j); }
    if Tied(PlainLabels(b), j) { TiedElsewhere(b, a, j, i); }
  }
}
