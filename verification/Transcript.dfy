/** Transcript lines and what the collector reads out of them: the session a file
    belongs to, the filesystem paths its tool calls touched, and its usage rows
    (internal/collector/transcript.go, internal/collector/touchedpaths.go).

    A line arrives already decoded. An absent JSON string is the empty string. */
module Transcript {
  import opened Basics

  datatype Tokens = Tokens(input: int, output: int, cacheRead: int, cacheCreation: int)

  /** One element of message.content. `cdTarget` is what the leading `cd` pattern
      extracts from a Bash command. */
  datatype Block =
    | ToolUse(name: string, filePath: string, path: string, cdTarget: Option<string>)
    | OtherBlock

  datatype Message = Message(id: string, model: string, usage: Option<Tokens>, content: seq<Block>)

  datatype Line =
    | Malformed
    | Record(sessionId: string, cwd: string, timestamp: int, message: Option<Message>)

  datatype UsageRow = UsageRow(messageId: string, sessionId: string, cwd: string, model: string,
                               tokens: Tokens, timestamp: int)

  // ---- the session of a file ----

  function FirstSessionId(lines: seq<Line>): Option<string> {
    if lines == [] then None
    else if lines[0].Record? && lines[0].sessionId != "" then Some(lines[0].sessionId)
    else FirstSessionId(lines[1..])
  }

  ghost predicate NamesSession(line: Line, s: string) { line.Record? && line.sessionId == s && s != "" }

  /** A file's session is the first non-empty session id any of its lines names. */
  lemma {:induction false} FirstSessionIdExactly(lines: seq<Line>, s: string)
    ensures FirstSessionId(lines) == Some(s) <==>
              exists k :: 0 <= k < |lines| && NamesSession(lines[k], s)
                       && forall j :: 0 <= j < k && lines[j].Record? ==> lines[j].sessionId == ""
  {
    if lines != [] {
      var rest := lines[1..];
      FirstSessionIdExactly(rest, s);
      if lines[0].Record? && lines[0].sessionId != "" {
        if lines[0].sessionId == s { assert NamesSession(lines[0], s); }
      } else {
        if k :| 0 <= k < |rest| && NamesSession(rest[k], s) && forall j :: 0 <= j < k && rest[j].Record? ==> rest[j].sessionId == "" {
          assert NamesSession(lines[k + 1], s);
          forall j | 0 <= j < k + 1 && lines[j].Record? ensures lines[j].sessionId == "" { if j > 0 { assert lines[j] == rest[j - 1]; } }
        }
        if k :| 0 <= k < |lines| && NamesSession(lines[k], s) && forall j :: 0 <= j < k && lines[j].Record? ==> lines[j].sessionId == "" {
          assert NamesSession(rest[k - 1], s);
          forall j | 0 <= j < k - 1 && rest[j].Record? ensures rest[j].sessionId == "" { assert rest[j] == lines[j + 1]; }
        }
      }
    }
  }

  /** Appending lines never changes a session that is already known. */
  lemma {:induction false} SessionStable(lines: seq<Line>, more: seq<Line>)
    requires FirstSessionId(lines).Some?
    ensures FirstSessionId(lines + more) == FirstSessionId(lines)
  {
    assert (lines + more)[0] == lines[0];
    if !(lines[0].Record? && lines[0].sessionId != "") {
      assert (lines + more)[1..] == lines[1..] + more;
      SessionStable(lines[1..], more);
    }
  }

  // ---- touched paths ----

  function TouchedPathFromBlock(b: Block): Option<string> {
    match b
    case OtherBlock => None
    case ToolUse(name, filePath, path, cdTarget) =>
      if name == "Read" || name == "Write" || name == "Edit" then
        if filePath != "" then Some(filePath) else None
      else if name == "Glob" then
        if path != "" then Some(path) else None
      else if name == "Bash" then cdTarget
      else None
  }

  function TouchedInBlocks(blocks: seq<Block>): seq<string> {
    if blocks == [] then []
    else match TouchedPathFromBlock(blocks[0])
      case Some(p) => [p] + TouchedInBlocks(blocks[1..])
      case None => TouchedInBlocks(blocks[1..])
  }

  function TouchedInLine(line: Line): seq<string> {
    if line.Record? && line.message.Some? then TouchedInBlocks(line.message.value.content) else []
  }

  function TouchedPaths(lines: seq<Line>): seq<string> {
    if lines == [] then [] else TouchedInLine(lines[0]) + TouchedPaths(lines[1..])
  }

  /** What touches a path: a file tool's path, a glob's directory, or where a Bash command
      changes to. */
  predicate Touches(b: Block, p: string) {
    && b.ToolUse?
    && (   (b.name in {"Read", "Write", "Edit"} && b.filePath == p && p != "")
        || (b.name == "Glob" && b.path == p && p != "")
        || (b.name == "Bash" && b.cdTarget == Some(p)))
  }

  /** How many tool-use blocks of the lines touch `p`. */
  function TimesTouched(lines: seq<Line>, p: string): nat {
    if lines == [] then 0 else TimesInLine(lines[0], p) + TimesTouched(lines[1..], p)
  }

  function TimesInLine(line: Line, p: string): nat {
    if line.Malformed? || line.message.None? then 0 else TimesInBlocks(line.message.value.content, p)
  }

  function TimesInBlocks(blocks: seq<Block>, p: string): nat {
    if blocks == [] then 0 else (if Touches(blocks[0], p) then 1 else 0) + TimesInBlocks(blocks[1..], p)
  }

  lemma TouchesExactly(b: Block, p: string)
    ensures TouchedPathFromBlock(b) == Some(p) <==> Touches(b, p)
  {}

  lemma {:induction false} TouchedInBlocksExactly(blocks: seq<Block>, p: string)
    ensures multiset(TouchedInBlocks(blocks))[p] == TimesInBlocks(blocks, p)
  {
    if blocks != [] {
      TouchesExactly(blocks[0], p);
      TouchedInBlocksExactly(blocks[1..], p);
      OneMore(TouchedPathFromBlock(blocks[0]), TouchedInBlocks(blocks[1..]), p);
    }
  }

  lemma OneMore(found: Option<string>, rest: seq<string>, p: string)
    ensures multiset(match found case Some(q) => [q] + rest case None => rest)[p] ==
            (if found == Some(p) then 1 else 0) + multiset(rest)[p]
  {}

  /** The touched paths are those of the touching blocks, each as often as it is touched. */
  lemma {:induction false} TouchedExactly(lines: seq<Line>, p: string)
    ensures multiset(TouchedPaths(lines))[p] == TimesTouched(lines, p)
  {
    if lines != [] {
      TouchedExactly(lines[1..], p);
      if lines[0].Record? && lines[0].message.Some? { TouchedInBlocksExactly(lines[0].message.value.content, p); }
    }
  }

  /** The inner loop, over the blocks of one message. */
  method AppendTouched(sofar: seq<string>, blocks: seq<Block>) returns (out: seq<string>)
    ensures out == sofar + TouchedInBlocks(blocks)
  {
    out := sofar;
    for j := 0 to |blocks|
      invariant out + TouchedInBlocks(blocks[j..]) == sofar + TouchedInBlocks(blocks)
    {
      var p := TouchedPathFromBlock(blocks[j]);
      if p.Some? {
        out := out + [p.value];
      }
    }
  }

  lemma Regroup(a: seq<string>, b: seq<string>, c: seq<string>)
    ensures (a + b) + c == a + (b + c) && a + [] == a
  {}

  method ExtractTouchedPaths(lines: seq<Line>) returns (out: seq<string>)
    ensures out == TouchedPaths(lines)
  {
    out := [];
    var rest := lines;
    while rest != []
      invariant out + TouchedPaths(rest) == TouchedPaths(lines)
    {
      Regroup(out, TouchedInLine(rest[0]), TouchedPaths(rest[1..]));
      if rest[0].Record? && rest[0].message.Some? {
        out := AppendTouched(out, rest[0].message.value.content);
      }
      rest := rest[1..];
    }
    Regroup(out, [], []);
  }

  /** Scanning a file in two pieces finds what one pass over the whole file finds. */
  lemma {:induction false} TouchedPathsSplit(a: seq<Line>, b: seq<Line>)
    ensures TouchedPaths(a + b) == TouchedPaths(a) + TouchedPaths(b)
  {
    if a == [] {
      assert a + b == b;
    } else {
      assert (a + b)[1..] == a[1..] + b;
      TouchedPathsSplit(a[1..], b);
    }
  }

  // ---- usage rows, one per message.id ----

  /** A line that counts: a decoded record whose message carries a usage dict and an id. */
  predicate IsUsage(line: Line) {
    line.Record? && line.message.Some? && line.message.value.usage.Some? && line.message.value.id != ""
  }

  function UsageId(line: Line): string
    requires IsUsage(line)
  { line.message.value.id }

  function RowOf(line: Line): UsageRow
    requires IsUsage(line)
  {
    var m := line.message.value;
    UsageRow(m.id, line.sessionId, line.cwd, m.model, m.usage.value, line.timestamp)
  }

  function UsageIds(lines: seq<Line>): set<string> {
    set l | l in lines && IsUsage(l) :: UsageId(l)
  }

  /** The rows of `lines` when the ids in `seen` are already taken. */
  function RowsUnseen(lines: seq<Line>, seen: set<string>): seq<UsageRow> {
    if lines == [] then []
    else
      var before := RowsUnseen(lines[..|lines| - 1], seen);
      var last := lines[|lines| - 1];
      if IsUsage(last) && UsageId(last) !in seen + UsageIds(lines[..|lines| - 1])
      then before + [RowOf(last)] else before
  }

  function UsageRows(lines: seq<Line>): seq<UsageRow> { RowsUnseen(lines, {}) }

  lemma UsageIdsSnoc(lines: seq<Line>)
    requires lines != []
    ensures UsageIds(lines) == UsageIds(lines[..|lines| - 1]) +
                               (if IsUsage(lines[|lines| - 1]) then {UsageId(lines[|lines| - 1])} else {})
  {
    var n := |lines| - 1;
    forall l | l in lines ensures l in lines[..n] || l == lines[n] {
      var k :| 0 <= k < |lines| && lines[k] == l;
      if k < n { assert lines[..n][k] == l; }
    }
  }

  lemma UsageIdsSplit(a: seq<Line>, b: seq<Line>)
    ensures UsageIds(a + b) == UsageIds(a) + UsageIds(b)
  {}

  method ExtractUsageRows(lines: seq<Line>) returns (rows: seq<UsageRow>)
    ensures rows == UsageRows(lines)
  {
    var seen: set<string> := {};
    rows := [];
    for i := 0 to |lines|
      invariant seen == UsageIds(lines[..i])
      invariant rows == UsageRows(lines[..i])
    {
      var line := lines[i];
      assert lines[..i + 1][..i] == lines[..i];
      UsageIdsSnoc(lines[..i + 1]);
      if !IsUsage(line) { continue; }
      if UsageId(line) in seen { continue; }
      seen := seen + {UsageId(line)};
      rows := rows + [RowOf(line)];
    }
    assert lines[..|lines|] == lines;
  }

  function RowIds(rows: seq<UsageRow>): set<string> { set r | r in rows :: r.messageId }

  ghost predicate DistinctIds(rows: seq<UsageRow>) {
    forall i, j :: 0 <= i < j < |rows| ==> rows[i].messageId != rows[j].messageId
  }

  /** `row` is taken from the first line of `lines` that carries its id. */
  ghost predicate FromFirstLine(lines: seq<Line>, row: UsageRow) {
    exists k :: 0 <= k < |lines| && IsUsage(lines[k]) && RowOf(lines[k]) == row
             && row.messageId !in UsageIds(lines[..k])
  }

  /** What one pass promises: no id twice, exactly the ids the lines carry (less those
      already seen), and every row read off the first line that carries its id. */
  lemma {:induction false} RowsAreFirstWins(lines: seq<Line>, seen: set<string>)
    ensures DistinctIds(RowsUnseen(lines, seen))
    ensures RowIds(RowsUnseen(lines, seen)) == UsageIds(lines) - seen
    ensures forall row :: row in RowsUnseen(lines, seen) ==> FromFirstLine(lines, row)
  {
    if lines != [] {
      var n := |lines| - 1;
      var before, last := RowsUnseen(lines[..n], seen), lines[n];
      RowsAreFirstWins(lines[..n], seen);
      UsageIdsSnoc(lines);
      forall row | row in before ensures FromFirstLine(lines, row) {
        var k :| 0 <= k < n && IsUsage(lines[..n][k]) && RowOf(lines[..n][k]) == row
              && row.messageId !in UsageIds(lines[..n][..k]);
        assert lines[..n][..k] == lines[..k] && lines[..n][k] == lines[k];
      }
      if IsUsage(last) && UsageId(last) !in seen + UsageIds(lines[..n]) {
        assert FromFirstLine(lines, RowOf(last));
        var rows := before + [RowOf(last)];
        assert RowsUnseen(lines, seen) == rows;
        assert forall r :: r in rows <==> r in before || r == RowOf(last);
        assert RowIds(rows) == RowIds(before) + {UsageId(last)};
      }
    }
  }

  /** `row` says what line `l` says. */
  predicate ReadOff(row: UsageRow, l: Line) {
    && l.Record? && l.message.Some? && l.message.value.usage == Some(row.tokens)
    && l.message.value.id == row.messageId && row.messageId != "" && l.message.value.model == row.model
    && l.sessionId == row.sessionId && l.cwd == row.cwd && l.timestamp == row.timestamp
  }

  /** The line carries a usage dict under this id. */
  predicate Carries(l: Line, id: string) {
    l.Record? && l.message.Some? && l.message.value.usage.Some? && l.message.value.id == id && id != ""
  }

  /** Field by field: each row says what the first line that carries its id says. */
  lemma RowsReadOff(lines: seq<Line>, row: UsageRow)
    requires row in UsageRows(lines)
    ensures exists k :: 0 <= k < |lines| && ReadOff(row, lines[k]) && forall j :: 0 <= j < k ==> !Carries(lines[j], row.messageId)
  {
    RowsAreFirstWins(lines, {});
    var k :| 0 <= k < |lines| && IsUsage(lines[k]) && RowOf(lines[k]) == row && row.messageId !in UsageIds(lines[..k]);
    forall j | 0 <= j < k ensures !Carries(lines[j], row.messageId) {
      assert lines[..k][j] == lines[j];
      assert IsUsage(lines[j]) ==> UsageId(lines[j]) in UsageIds(lines[..k]);
    }
  }

  /** The rows come in the order of their first lines. */
  lemma {:induction false} RowsInOrder(lines: seq<Line>, i: nat, j: nat, k: nat)
    requires i < j < |UsageRows(lines)| && k < |lines| && Carries(lines[k], UsageRows(lines)[j].messageId)
    ensures exists m :: 0 <= m < k && Carries(lines[m], UsageRows(lines)[i].messageId)
  {
    var n := |lines| - 1;
    var before := UsageRows(lines[..n]);
    if j < |before| {
      if k < n {
        RowsInOrder(lines[..n], i, j, k);
        var m :| 0 <= m < k && Carries(lines[..n][m], before[i].messageId);
        assert Carries(lines[m], before[i].messageId);
      } else {
        CarriedBefore(lines[..n], i);
      }
    } else {
      LastRowIsNew(lines);
      CarriedBefore(lines[..n], i);
      var m :| 0 <= m < n && Carries(lines[..n][m], before[i].messageId);
      assert Carries(lines[m], before[i].messageId);
    }
  }

  lemma CarriedBefore(lines: seq<Line>, i: nat)
    requires i < |UsageRows(lines)|
    ensures exists m :: 0 <= m < |lines| && Carries(lines[m], UsageRows(lines)[i].messageId)
  {
    RowsReadOff(lines, UsageRows(lines)[i]);
    var m :| 0 <= m < |lines| && ReadOff(UsageRows(lines)[i], lines[m]);
    assert Carries(lines[m], UsageRows(lines)[i].messageId);
  }

  lemma LastRowIsNew(lines: seq<Line>)
    requires lines != [] && |UsageRows(lines)| > |UsageRows(lines[..|lines| - 1])|
    ensures forall k :: 0 <= k < |lines| - 1 ==> !Carries(lines[k], UsageRows(lines)[|UsageRows(lines)| - 1].messageId)
  {
    var n := |lines| - 1;
    forall k | 0 <= k < n ensures !Carries(lines[k], UsageId(lines[n])) {
      assert lines[..n][k] == lines[k];
      assert IsUsage(lines[k]) ==> UsageId(lines[k]) in UsageIds(lines[..n]);
    }
  }

  /** Deduplicating a file by itself and then dropping the ids seen in earlier files
      is one pass over the concatenation. */
  lemma {:induction false} RowsUnseenSplit(a: seq<Line>, b: seq<Line>, seen: set<string>)
    ensures RowsUnseen(a + b, seen) == RowsUnseen(a, seen) + RowsUnseen(b, seen + UsageIds(a))
  {
    if b == [] {
      assert a + b == a;
    } else {
      var n := |b| - 1;
      assert (a + b)[..|a + b| - 1] == a + b[..n];
      RowsUnseenSplit(a, b[..n], seen);
      UsageIdsSplit(a, b[..n]);
      assert seen + UsageIds(a + b[..n]) == (seen + UsageIds(a)) + UsageIds(b[..n]);
    }
  }

  function DropSeen(rows: seq<UsageRow>, seen: set<string>): seq<UsageRow> {
    if rows == [] then []
    else
      var before := DropSeen(rows[..|rows| - 1], seen);
      if rows[|rows| - 1].messageId in seen then before else before + [rows[|rows| - 1]]
  }

  lemma DropSeenSnoc(rows: seq<UsageRow>, row: UsageRow, seen: set<string>)
    ensures DropSeen(rows + [row], seen) == DropSeen(rows, seen) + (if row.messageId in seen then [] else [row])
  {
    assert (rows + [row])[..|rows|] == rows;
  }

  lemma {:induction false} DropSeenIsUnseen(lines: seq<Line>, seen: set<string>)
    ensures DropSeen(UsageRows(lines), seen) == RowsUnseen(lines, seen)
  {
    if lines != [] {
      var n := |lines| - 1;
      DropSeenIsUnseen(lines[..n], seen);
      var before, last := UsageRows(lines[..n]), lines[n];
      if IsUsage(last) && UsageId(last) !in UsageIds(lines[..n]) {
        assert UsageRows(lines) == before + [RowOf(last)];
        DropSeenSnoc(before, RowOf(last), seen);
      } else {
        assert UsageRows(lines) == before;
      }
    }
  }

  /** The earliest row of the session that names a cwd. */
  function FirstCwd(rows: seq<UsageRow>, session: string): Option<string> {
    if rows == [] then None
    else if rows[0].sessionId == session && rows[0].cwd != "" then Some(rows[0].cwd)
    else FirstCwd(rows[1..], session)
  }

  ghost predicate NamesCwd(row: UsageRow, session: string, cwd: string) {
    row.sessionId == session && row.cwd == cwd && cwd != ""
  }

  /** `cwd` is that of the earliest row of the session with one, or none of its rows has one. */
  ghost predicate IsFirstCwd(rows: seq<UsageRow>, session: string, cwd: Option<string>) {
    match cwd
    case Some(dir) =>
      exists k :: 0 <= k < |rows| && NamesCwd(rows[k], session, dir)
               && forall j :: 0 <= j < k && rows[j].sessionId == session ==> rows[j].cwd == ""
    case None => forall k :: 0 <= k < |rows| && rows[k].sessionId == session ==> rows[k].cwd == ""
  }

  lemma {:induction false} FirstCwdExactly(rows: seq<UsageRow>, session: string)
    ensures IsFirstCwd(rows, session, FirstCwd(rows, session))
  {
    if rows != [] {
      var rest := rows[1..];
      FirstCwdExactly(rest, session);
      if rows[0].sessionId == session && rows[0].cwd != "" {
        assert NamesCwd(rows[0], session, rows[0].cwd);
      } else {
        assert forall k :: 0 < k < |rows| ==> rows[k] == rest[k - 1];
        if dir :| FirstCwd(rest, session) == Some(dir) {
          var k :| 0 <= k < |rest| && NamesCwd(rest[k], session, dir)
                && forall j :: 0 <= j < k && rest[j].sessionId == session ==> rest[j].cwd == "";
          assert NamesCwd(rows[k + 1], session, dir);
        }
      }
    }
  }

  method FirstCwdBearingRow(rows: seq<UsageRow>, session: string) returns (cwd: string, ok: bool)
    ensures FirstCwd(rows, session) == if ok then Some(cwd) else None
  {
    for i := 0 to |rows|
      invariant FirstCwd(rows, session) == FirstCwd(rows[i..], session)
    {
      if rows[i].sessionId != session { continue; }
      if rows[i].cwd != "" {
        return rows[i].cwd, true;
      }
    }
    return "", false;
  }
}
