/** No statement is lost: the statements read at a depth are those of the files run at that
    depth, each exactly once and in order. */
module Coverage {
  import opened Text
  import opened Variables
  import opened Expansion
  import opened Ports
  import opened Trace
  import opened Interpreter
  import opened StatementEvents

  /** The raw statements read at one include depth. */
  function ReadAt(depth: int, t: seq<Event>): seq<string> {
    if t == [] then [] else ReadAt(depth, t[..|t| - 1]) + ReadBy(depth, t[|t| - 1])
  }

  function ReadBy(depth: int, e: Event): seq<string> {
    match e
    case Expanded(d, raw, _) => if d == depth then [raw] else []
    case ExpandFailed(d, raw) => if d == depth then [raw] else []
    case _ => []
  }

  lemma ReadSnoc(depth: int, t: seq<Event>, e: Event)
    ensures ReadAt(depth, t + [e]) == ReadAt(depth, t) + ReadBy(depth, e)
  {
    assert (t + [e])[..|t|] == t;
  }

  /** An event that is not the reading of a statement at that depth. */
  lemma ReadSame(depth: int, t: seq<Event>, e: Event)
    requires ReadBy(depth, e) == []
    ensures ReadAt(depth, t + [e]) == ReadAt(depth, t)
  {
    ReadSnoc(depth, t, e);
    assert ReadAt(depth, t) + [] == ReadAt(depth, t);
  }

  lemma {:induction false} ReadShown(stmt: string, t: seq<Event>, u: seq<Event>, j: int)
    requires stmt != "" && Shows(stmt, t, u)
    ensures ReadAt(j, u) == ReadAt(j, t)
    decreases |u|
  {
    if u != t {
      ReadShown(stmt, t, u[..|u| - 1], j);
      assert ReadAt(j, t) + [] == ReadAt(j, t);
    }
  }

  lemma {:induction false} ExecuteReads(w: World, statement: string, s: State, depth: int, j: int)
    requires statement != "" && NoDollar(statement[1..]) && '\0' !in statement
    requires 0 <= depth < MAX_SCRIPT_FILE_DEPTH && j <= depth
    ensures ReadAt(j, Execute(w, statement, s, depth).state.trace) == ReadAt(j, s.trace)
    decreases MAX_SCRIPT_FILE_DEPTH - depth, 1, 0
  {
    if !IsInclude(statement) {
      PlainShows(w, statement, s, depth);
      ReadShown(statement, s.trace, Execute(w, statement, s, depth).state.trace, j);
    } else if IncludeName(statement).Some? {
      ProcessReads(w, IncludeName(statement).value, s, depth, j);
    }
  }

  lemma {:induction false} ConsiderReads(w: World, statement: string, count: int, s: State, depth: int, j: int)
    requires statement != "" && NoDollar(statement[1..]) && '\0' !in statement
    requires 0 <= depth < MAX_SCRIPT_FILE_DEPTH && j <= depth
    ensures ReadAt(j, Consider(w, statement, count, s, depth).state.trace) == ReadAt(j, s.trace)
    decreases MAX_SCRIPT_FILE_DEPTH - depth, 2, 0
  {
    if statement[0] != '@' && Halted(s.verdict) {
      ReadSame(j, s.trace, SkippedOver(statement));
    } else {
      ExecuteReads(w, statement, s, depth, j);
      var r := Execute(w, statement, s, depth);
      ReadSame(j, r.state.trace, Ran(statement, r.ret));
    }
  }

  /** One round of the loop reads one statement at its depth, and none nearer to the script. */
  lemma {:induction false} StepReads(w: World, raw: string, s: State, depth: int, j: int)
    requires raw != "" && '\0' !in raw
    requires 0 <= depth < MAX_SCRIPT_FILE_DEPTH && j <= depth
    ensures ReadAt(j, Step(w, raw, s, depth).state.trace) == ReadAt(j, s.trace) + (if j == depth then [raw] else [])
    decreases MAX_SCRIPT_FILE_DEPTH - depth, 3, 0
  {
    var e := Expand(raw, s.vars);
    if e.None? {
      ReadSnoc(j, s.trace, ExpandFailed(depth, raw));
    } else {
      StepIs(w, raw, s, depth);
      ReadSnoc(j, s.trace, Expanded(depth, raw, e.value.text));
      ConsiderReads(w, e.value.text, e.value.count, Log(s, Expanded(depth, raw, e.value.text)), depth, j);
    }
  }

  /** Running statements reads exactly them at their depth, and none nearer to the script. */
  lemma {:induction false} RunReads(w: World, ss: seq<string>, ret: int, s: State, depth: int, j: int)
    requires Readable(ss)
    requires 0 <= depth < MAX_SCRIPT_FILE_DEPTH && j <= depth
    ensures ReadAt(j, RunStatements(w, ss, ret, s, depth).state.trace) == ReadAt(j, s.trace) + (if j == depth then ss else [])
    decreases MAX_SCRIPT_FILE_DEPTH - depth, 4, |ss|
  {
    if ss == [] {
      assert ReadAt(j, s.trace) + [] == ReadAt(j, s.trace);
    } else {
      StepReads(w, ss[0], s, depth, j);
      var r := Step(w, ss[0], s, depth);
      RunReads(w, ss[1..], r.ret, r.state, depth, j);
      ConsReads(ReadAt(j, s.trace), ss, j == depth);
    }
  }

  lemma ConsReads(before: seq<string>, ss: seq<string>, here: bool)
    requires ss != []
    ensures before + (if here then [ss[0]] else []) + (if here then ss[1..] else []) == before + (if here then ss else [])
  {
    assert ss == [ss[0]] + ss[1..];
  }

  lemma {:induction false} ProcessReads(w: World, name: string, s: State, depth: int, j: int)
    requires -1 <= depth < MAX_SCRIPT_FILE_DEPTH && j <= depth
    ensures ReadAt(j, ProcessFile(w, name, s, depth).state.trace) == ReadAt(j, s.trace)
    decreases MAX_SCRIPT_FILE_DEPTH - depth, 0, 0
  {
    if !CanOpen(w, name, depth) {
      ReadSame(j, s.trace, OpenFailed(name));
    } else {
      ProcessIs(w, name, s, depth);
      ReadSame(j, s.trace, Entered(name));
      RunReads(w, w.files[name], SUCCESS, Log(s, Entered(name)), depth + 1, j);
    }
  }

  /** A whole run reads each statement of the script once, in order, wherever includes,
      failures and reports come in between. */
  lemma ProgramReads(w: World, name: string, future: seq<Tick>)
    requires name in w.files
    ensures ReadAt(0, Program(w, name, future).trace) == w.files[name]
  {
    var s := Initial(future);
    var last := ProcessFile(w, name, s, -1).state;
    CleanupShows(w, "@", last);
    ReadShown("@", last.trace, Cleanup(w, last).trace, 0);
    ProcessIs(w, name, s, -1);
    ReadSame(0, s.trace, Entered(name));
    RunReads(w, w.files[name], SUCCESS, Log(s, Entered(name)), 0, 0);
    assert [] + w.files[name] == w.files[name];
  }

  // ---------- Files that were run ----------

  /** The event `e` of the history enters the file of the include `stmt`, right behind the reading
      of `stmt`, and all that was read one level deeper since then are the statements of the
      file, each once and in order. */
  predicate EnteredAt(w: World, t: seq<Event>, stmt: string, e: nat)
    requires stmt != "" && 0 < e < |t|
  {
    var name := IncludeName(stmt);
    && name.Some? && name.value in w.files && t[e] == Entered(name.value)
    && t[e - 1].Expanded? && t[e - 1].stmt == stmt
    && ReadAt(t[e - 1].depth + 1, t) == ReadAt(t[e - 1].depth + 1, t[..e + 1]) + w.files[name.value]
  }

  ghost predicate RanFile(w: World, t: seq<Event>, stmt: string) {
    stmt != "" && exists e: nat :: 0 < e < |t| && EnteredAt(w, t, stmt, e)
  }

  /** The event says that an include has run with success. */
  predicate IncludesWell(e: Event) {
    e.Ran? && IsInclude(e.stmt) && e.ret == SUCCESS
  }

  /** Each include that ran with success has run its file. */
  ghost predicate FilesRun(w: World, t: seq<Event>) {
    t == [] ||
    (FilesRun(w, t[..|t| - 1]) && (IncludesWell(t[|t| - 1]) ==> RanFile(w, t[..|t| - 1], t[|t| - 1].stmt)))
  }

  lemma FilesSnoc(w: World, t: seq<Event>, e: Event)
    requires FilesRun(w, t) && (IncludesWell(e) ==> RanFile(w, t, e.stmt))
    ensures FilesRun(w, t + [e]) && t <= t + [e]
  {
    assert (t + [e])[..|t|] == t;
  }

  lemma {:induction false} FilesShown(w: World, stmt: string, t: seq<Event>, u: seq<Event>)
    requires stmt != "" && Shows(stmt, t, u) && FilesRun(w, t)
    ensures FilesRun(w, u) && t <= u
    decreases |u|
  {
    if u != t {
      FilesShown(w, stmt, t, u[..|u| - 1]);
    }
  }

  lemma {:induction false} FilesAt(w: World, t: seq<Event>, k: nat)
    requires FilesRun(w, t) && k < |t| && IncludesWell(t[k])
    ensures RanFile(w, t[..k], t[k].stmt)
    decreases |t|
  {
    if k < |t| - 1 {
      FilesAt(w, t[..|t| - 1], k);
      assert t[..|t| - 1][..k] == t[..k];
    }
  }

  lemma RanFileAt(w: World, t: seq<Event>, before: seq<Event>, raw: string, stmt: string, name: string, depth: int)
    requires stmt != "" && IncludeName(stmt) == Some(name) && name in w.files
    requires var front := before + [Expanded(depth, raw, stmt)] + [Entered(name)];
             front <= t && ReadAt(depth + 1, t) == ReadAt(depth + 1, front) + w.files[name]
    ensures RanFile(w, t, stmt)
  {
    hide IncludeName, ReadAt;
    var front := before + [Expanded(depth, raw, stmt)] + [Entered(name)];
    var e := |before| + 1;
    assert t[..e + 1] == front && t[e] == front[e] && t[e - 1] == front[e - 1];
    assert EnteredAt(w, t, stmt, e);
  }

  /** The file of an include has been run. */
  lemma FileWasRun(w: World, raw: string, stmt: string, name: string, s: State, depth: int)
    requires stmt != "" && IncludeName(stmt) == Some(name) && 0 <= depth && CanOpen(w, name, depth)
    requires var x := Log(s, Expanded(depth, raw, stmt));
             x.trace + [Entered(name)] <= ProcessFile(w, name, x, depth).state.trace
    ensures RanFile(w, ProcessFile(w, name, Log(s, Expanded(depth, raw, stmt)), depth).state.trace, stmt)
  {
    hide ReadAt, RanFile, IncludeName, RunStatements, ProcessFile;
    var x := Log(s, Expanded(depth, raw, stmt));
    ProcessIs(w, name, x, depth);
    RunReads(w, w.files[name], SUCCESS, Log(x, Entered(name)), depth + 1, depth + 1);
    RanFileAt(w, ProcessFile(w, name, x, depth).state.trace, s.trace, raw, stmt, name, depth);
  }

  lemma {:induction false} IncludeFiles(w: World, raw: string, stmt: string, s: State, depth: int)
    requires FilesRun(w, s.trace) && IsInclude(stmt) && NoDollar(stmt[1..]) && '\0' !in stmt
    requires 0 <= depth < MAX_SCRIPT_FILE_DEPTH
    ensures var x := Log(s, Expanded(depth, raw, stmt));
            var r := Execute(w, stmt, x, depth);
            && FilesRun(w, r.state.trace) && s.trace <= r.state.trace
            && (r.ret == SUCCESS ==> RanFile(w, r.state.trace, stmt))
    decreases MAX_SCRIPT_FILE_DEPTH - depth, 1, 0
  {
    var x := Log(s, Expanded(depth, raw, stmt));
    FilesSnoc(w, s.trace, Expanded(depth, raw, stmt));
    if IncludeName(stmt).Some? {
      var name := IncludeName(stmt).value;
      ProcessFiles(w, name, x, depth);
      hide FilesRun, RanFile, RunStatements;
      if CanOpen(w, name, depth) {
        FileWasRun(w, raw, stmt, name, s, depth);
      }
    }
  }

  lemma {:induction false} StepFiles(w: World, raw: string, s: State, depth: int)
    requires FilesRun(w, s.trace) && raw != "" && '\0' !in raw
    requires 0 <= depth < MAX_SCRIPT_FILE_DEPTH
    ensures FilesRun(w, Step(w, raw, s, depth).state.trace) && s.trace <= Step(w, raw, s, depth).state.trace
    decreases MAX_SCRIPT_FILE_DEPTH - depth, 2, 0
  {
    hide FilesRun, RanFile, Execute, Step;
    var e := Expand(raw, s.vars);
    if e.None? {
      StepRefuses(w, raw, s, depth);
      FilesSnoc(w, s.trace, ExpandFailed(depth, raw));
    } else {
      StepIs(w, raw, s, depth);
      var stmt := e.value.text;
      var x := Log(s, Expanded(depth, raw, stmt));
      FilesSnoc(w, s.trace, Expanded(depth, raw, stmt));
      if stmt[0] != '@' && Halted(s.verdict) {
        FilesSnoc(w, x.trace, SkippedOver(stmt));
      } else {
        ConsiderIs(w, stmt, e.value.count, x, depth);
        var r := Execute(w, stmt, x, depth);
        if IsInclude(stmt) {
          IncludeFiles(w, raw, stmt, s, depth);
        } else {
          PlainShows(w, stmt, x, depth);
          FilesShown(w, stmt, x.trace, r.state.trace);
        }
        FilesSnoc(w, r.state.trace, Ran(stmt, r.ret));
      }
    }
  }

  lemma {:induction false} RunFiles(w: World, ss: seq<string>, ret: int, s: State, depth: int)
    requires FilesRun(w, s.trace) && Readable(ss)
    requires 0 <= depth < MAX_SCRIPT_FILE_DEPTH
    ensures FilesRun(w, RunStatements(w, ss, ret, s, depth).state.trace)
    ensures s.trace <= RunStatements(w, ss, ret, s, depth).state.trace
    decreases MAX_SCRIPT_FILE_DEPTH - depth, 3, |ss|
  {
    hide FilesRun, Step;
    if ss != [] {
      var r := Step(w, ss[0], s, depth);
      StepFiles(w, ss[0], s, depth);
      RunFiles(w, ss[1..], r.ret, r.state, depth);
    }
  }

  lemma {:induction false} ProcessFiles(w: World, name: string, s: State, depth: int)
    requires FilesRun(w, s.trace) && -1 <= depth < MAX_SCRIPT_FILE_DEPTH
    ensures var r := ProcessFile(w, name, s, depth);
            && FilesRun(w, r.state.trace) && s.trace <= r.state.trace
            && (CanOpen(w, name, depth) ==> s.trace + [Entered(name)] <= r.state.trace)
    decreases MAX_SCRIPT_FILE_DEPTH - depth, 0, 0
  {
    hide FilesRun, RunStatements;
    if !CanOpen(w, name, depth) {
      FilesSnoc(w, s.trace, OpenFailed(name));
    } else {
      ProcessIs(w, name, s, depth);
      FilesSnoc(w, s.trace, Entered(name));
      RunFiles(w, w.files[name], SUCCESS, Log(s, Entered(name)), depth + 1);
    }
  }

  /** Over whole runs: each include that ran with success entered its file right after it was read,
      and since then each statement of the file was read once, in order, and no other at
      that depth. */
  lemma ProgramFiles(w: World, name: string, future: seq<Tick>, k: nat)
    requires k < |Program(w, name, future).trace| && IncludesWell(Program(w, name, future).trace[k])
    ensures RanFile(w, Program(w, name, future).trace[..k], Program(w, name, future).trace[k].stmt)
  {
    var last := ProcessFile(w, name, Initial(future), -1).state;
    ProcessFiles(w, name, Initial(future), -1);
    CleanupShows(w, "@", last);
    FilesShown(w, "@", last.trace, Cleanup(w, last).trace);
    FilesAt(w, Program(w, name, future).trace, k);
  }
}
