/** Including a file is running its statements in place. */
module Inlining {
  import opened Text
  import opened Variables
  import opened Expansion
  import opened Ports
  import opened Trace
  import opened Interpreter
  import opened StatementEvents

  // ---------- Runs that differ in include bookkeeping only ----------

  /** What is left of an event when the bookkeeping of includes, the include depth, and the
      difference between FAILED and SKIPPED in a report are taken away. */
  function Bare(e: Event): seq<Event> {
    match e
    case Expanded(_, raw, stmt) => if IsInclude(stmt) then [] else [Expanded(0, raw, stmt)]
    case ExpandFailed(_, raw) => [ExpandFailed(0, raw)]
    case Ran(stmt, ret) => if IsInclude(stmt) then [] else [e]
    case Entered(_) => []
    case Reported(id, v) => [Reported(id, if v == Failed then Skipped else v)]
    case _ => [e]
  }

  function BareTrace(t: seq<Event>): seq<Event> {
    if t == [] then [] else BareTrace(t[..|t| - 1]) + Bare(t[|t| - 1])
  }

  lemma BareSnoc(t: seq<Event>, e: Event)
    ensures BareTrace(t + [e]) == BareTrace(t) + Bare(e)
  {
    assert (t + [e])[..|t|] == t;
  }

  lemma {:induction false} BareAppend(t: seq<Event>, u: seq<Event>)
    ensures BareTrace(t + u) == BareTrace(t) + BareTrace(u)
  {
    if u == [] {
      assert t + u == t && BareTrace(t) + [] == BareTrace(t);
    } else {
      var front, e := u[..|u| - 1], u[|u| - 1];
      assert u == front + [e];
      BareAppend(t, front);
      Assoc(t, front, [e]);
      BareSnoc(t + front, e);
      Assoc(BareTrace(t), BareTrace(front), Bare(e));
    }
  }

  /** The same verdict, taking FAILED and SKIPPED for one. */
  predicate SameVerdict(v: Verdict, u: Verdict) {
    v == u || (Halted(v) && Halted(u))
  }

  predicate Related(a: State, b: State) {
    && SameVerdict(a.verdict, b.verdict)
    && a.id == b.id && a.vars == b.vars && a.dev == b.dev
    && BareTrace(a.trace) == BareTrace(b.trace)
  }

  predicate SameResult(r: Result, q: Result) {
    Related(r.state, q.state) && r.ret == q.ret
  }

  lemma AddBoth(a: State, b: State, e: Event, f: Event)
    requires BareTrace(a.trace) == BareTrace(b.trace) && Bare(e) == Bare(f)
    ensures BareTrace(a.trace + [e]) == BareTrace(b.trace + [f])
  {
    BareSnoc(a.trace, e);
    BareSnoc(b.trace, f);
  }

  // ---------- Opens that fail ----------

  function OpenFailures(t: seq<Event>): nat {
    if t == [] then 0
    else OpenFailures(t[..|t| - 1]) + (if t[|t| - 1].OpenFailed? then 1 else 0)
  }

  lemma FailuresSnoc(t: seq<Event>, e: Event)
    ensures OpenFailures(t + [e]) == OpenFailures(t) + (if e.OpenFailed? then 1 else 0)
  {
    assert (t + [e])[..|t|] == t;
  }

  lemma {:induction false} FailuresShown(stmt: string, t: seq<Event>, u: seq<Event>)
    requires stmt != "" && Shows(stmt, t, u)
    ensures OpenFailures(u) == OpenFailures(t)
    decreases |u|
  {
    if u != t {
      FailuresShown(stmt, t, u[..|u| - 1]);
    }
  }

  lemma {:induction false} ExecuteFailures(w: World, statement: string, s: State, depth: int)
    requires statement != "" && NoDollar(statement[1..]) && '\0' !in statement
    requires 0 <= depth < MAX_SCRIPT_FILE_DEPTH
    ensures OpenFailures(s.trace) <= OpenFailures(Execute(w, statement, s, depth).state.trace)
    decreases MAX_SCRIPT_FILE_DEPTH - depth, 1, 0
  {
    if !IsInclude(statement) {
      PlainShows(w, statement, s, depth);
      FailuresShown(statement, s.trace, Execute(w, statement, s, depth).state.trace);
    } else if IncludeName(statement).Some? {
      ProcessFailures(w, IncludeName(statement).value, s, depth);
    }
  }

  lemma {:induction false} StepFailures(w: World, raw: string, s: State, depth: int)
    requires raw != "" && '\0' !in raw
    requires 0 <= depth < MAX_SCRIPT_FILE_DEPTH
    ensures OpenFailures(s.trace) <= OpenFailures(Step(w, raw, s, depth).state.trace)
    decreases MAX_SCRIPT_FILE_DEPTH - depth, 2, 0
  {
    var e := Expand(raw, s.vars);
    if e.None? {
      FailuresSnoc(s.trace, ExpandFailed(depth, raw));
    } else {
      ExpandIsFinal(raw, s.vars);
      var s' := Log(s, Expanded(depth, raw, e.value.text));
      FailuresSnoc(s.trace, Expanded(depth, raw, e.value.text));
      ConsiderFailures(w, e.value.text, e.value.count, s', depth);
    }
  }

  lemma {:induction false} ConsiderFailures(w: World, statement: string, count: int, s: State, depth: int)
    requires statement != "" && NoDollar(statement[1..]) && '\0' !in statement
    requires 0 <= depth < MAX_SCRIPT_FILE_DEPTH
    ensures OpenFailures(s.trace) <= OpenFailures(Consider(w, statement, count, s, depth).state.trace)
    decreases MAX_SCRIPT_FILE_DEPTH - depth, 1, 1
  {
    if statement[0] != '@' && Halted(s.verdict) {
      FailuresSnoc(s.trace, SkippedOver(statement));
    } else {
      ExecuteFailures(w, statement, s, depth);
      FinishFailures(statement, Execute(w, statement, s, depth));
      ConsiderIs(w, statement, count, s, depth);
    }
  }

  lemma FinishFailures(stmt: string, r: Result)
    ensures OpenFailures(Finish(stmt, r).state.trace) == OpenFailures(r.state.trace)
  {
    FailuresSnoc(r.state.trace, Ran(stmt, r.ret));
  }

  lemma {:induction false} RunFailures(w: World, ss: seq<string>, ret: int, s: State, depth: int)
    requires Readable(ss)
    requires 0 <= depth < MAX_SCRIPT_FILE_DEPTH
    ensures OpenFailures(s.trace) <= OpenFailures(RunStatements(w, ss, ret, s, depth).state.trace)
    decreases MAX_SCRIPT_FILE_DEPTH - depth, 3, |ss|
  {
    if ss != [] {
      StepFailures(w, ss[0], s, depth);
      var r := Step(w, ss[0], s, depth);
      RunFailures(w, ss[1..], r.ret, r.state, depth);
    }
  }

  lemma {:induction false} ProcessFailures(w: World, name: string, s: State, depth: int)
    requires -1 <= depth < MAX_SCRIPT_FILE_DEPTH
    ensures OpenFailures(s.trace) <= OpenFailures(ProcessFile(w, name, s, depth).state.trace)
    decreases MAX_SCRIPT_FILE_DEPTH - depth, 0, 0
  {
    hide RunStatements;
    if !CanOpen(w, name, depth) {
      NotOpened(w, name, s, depth);
    } else {
      ProcessIs(w, name, s, depth);
      FailuresSnoc(s.trace, Entered(name));
      RunFailures(w, w.files[name], SUCCESS, Log(s, Entered(name)), depth + 1);
    }
  }

  lemma NotOpened(w: World, name: string, s: State, depth: int)
    requires -1 <= depth < MAX_SCRIPT_FILE_DEPTH && !CanOpen(w, name, depth)
    ensures OpenFailures(ProcessFile(w, name, s, depth).state.trace) == OpenFailures(s.trace) + 1
  {
    FailuresSnoc(s.trace, OpenFailed(name));
  }

  // ---------- Related runs stay related ----------

  lemma CheckQueuesRelated(w: World, a: State, b: State)
    requires Related(a, b)
    ensures Related(CheckQueues(w, a), CheckQueues(w, b))
  {
    var found := Drain(w.cfg, a.dev.net).found;
    BareAppend(a.trace, Unexpecteds(found));
    BareAppend(b.trace, Unexpecteds(found));
  }

  /** The same event, or two with the same bare form, added to related states. */
  lemma AddRelated(a: State, b: State, e: Event, f: Event, v: Verdict, u: Verdict, id: string)
    requires Related(a, b) && Bare(e) == Bare(f) && SameVerdict(v, u)
    ensures Related(a.(verdict := v, id := id, trace := a.trace + [e]), b.(verdict := u, id := id, trace := b.trace + [f]))
  {
    AddBoth(a, b, e, f);
  }

  lemma LogRelated(a: State, b: State, e: Event, f: Event)
    requires Related(a, b) && Bare(e) == Bare(f)
    ensures Related(Log(a, e), Log(b, f))
  {
    AddBoth(a, b, e, f);
  }

  lemma CleanupRelated(w: World, a: State, b: State)
    requires Related(a, b)
    ensures Related(Cleanup(w, a), Cleanup(w, b))
    ensures Cleanup(w, a).id == a.id
  {
    CheckQueuesRelated(w, a, b);
    var c, d := CheckQueues(w, a), CheckQueues(w, b);
    LogRelated(c, d, Reported(c.id, c.verdict), Reported(d.id, d.verdict));
  }

  lemma RunTestCaseRelated(w: World, statement: string, a: State, b: State)
    requires Related(a, b) && statement != ""
    ensures SameResult(RunTestCase(w, statement, a), RunTestCase(w, statement, b))
  {
    CleanupRelated(w, a, b);
    var id := TestCaseId(statement);
    if id.Some? {
      AddRelated(Cleanup(w, a), Cleanup(w, b), Accepted(id.value), Accepted(id.value), Passed, Passed, id.value);
    }
  }

  lemma BegunRelated(w: World, a: State, b: State)
    requires Related(a, b)
    ensures Related(Begun(w, a), Begun(w, b))
  {
    if a.verdict == Unknown {
      CleanupRelated(w, a, b);
      var c, d := Cleanup(w, a), Cleanup(w, b);
      AddRelated(c, d, Started, Started, Passed, Passed, c.id);
    }
  }

  lemma RunPacketRelated(w: World, statement: string, a: State, b: State)
    requires Related(a, b) && statement != ""
    ensures SameResult(RunPacket(w, statement, a), RunPacket(w, statement, b))
  {
    BegunRelated(w, a, b);
    var c, d := Begun(w, a), Begun(w, b);
    var o := PacketProcess(w.cfg, statement, c.dev);
    if o.shown.Some? {
      AddBoth(c, d, o.shown.value, o.shown.value);
    }
  }

  lemma RunAssignmentRelated(statement: string, a: State, b: State)
    requires Related(a, b)
    requires statement != "" && NoDollar(statement[1..]) && '\0' !in statement
    ensures SameResult(RunAssignment(statement, a), RunAssignment(statement, b))
  {
    var stored := Store(a.vars, statement[1..]);
    if stored.Some? {
      var x := ParseAssignment(statement[1..]).value;
      AddBoth(a, b, Stored(x.name, x.value), Stored(x.name, x.value));
    }
  }

  lemma {:induction false} ExecuteRelated(w: World, statement: string, a: State, b: State, m: int, n: int)
    requires Related(a, b) && (statement != "" && statement[0] != '@' ==> !Halted(a.verdict))
    requires statement != "" && NoDollar(statement[1..]) && '\0' !in statement
    requires 0 <= n <= m < MAX_SCRIPT_FILE_DEPTH
    requires OpenFailures(Execute(w, statement, a, m).state.trace) == OpenFailures(a.trace)
    ensures SameResult(Execute(w, statement, a, m), Execute(w, statement, b, n))
    decreases MAX_SCRIPT_FILE_DEPTH - m, 1, 0
  {
    if IsInclude(statement) {
      if IncludeName(statement).Some? {
        ProcessRelated(w, IncludeName(statement).value, a, b, m, n);
      }
    } else if statement[0] == '@' {
      RunTestCaseRelated(w, statement, a, b);
    } else if statement[0] == '<' || statement[0] == '>' {
      RunPacketRelated(w, statement, a, b);
    } else if statement[0] == '$' {
      RunAssignmentRelated(statement, a, b);
    }
  }

  lemma {:induction false} ConsiderRelated(w: World, statement: string, count: int, a: State, b: State, m: int, n: int)
    requires Related(a, b)
    requires statement != "" && NoDollar(statement[1..]) && '\0' !in statement
    requires 0 <= n <= m < MAX_SCRIPT_FILE_DEPTH
    requires OpenFailures(Consider(w, statement, count, a, m).state.trace) == OpenFailures(a.trace)
    ensures SameResult(Consider(w, statement, count, a, m), Consider(w, statement, count, b, n))
    decreases MAX_SCRIPT_FILE_DEPTH - m, 2, 0
  {
    if statement[0] != '@' && Halted(a.verdict) {
      PassOverRelated(w, statement, count, a, b, m, n);
    } else {
      ConsiderIs(w, statement, count, a, m);
      ConsiderIs(w, statement, count, b, n);
      FinishFailures(statement, Execute(w, statement, a, m));
      ExecuteRelated(w, statement, a, b, m, n);
      FinishBoth(statement, Execute(w, statement, a, m), Execute(w, statement, b, n));
    }
  }

  lemma FinishBoth(stmt: string, r: Result, q: Result)
    requires SameResult(r, q)
    ensures SameResult(Finish(stmt, r), Finish(stmt, q))
  {
    AddBoth(r.state, q.state, Ran(stmt, r.ret), Ran(stmt, q.ret));
  }

  lemma PassOverRelated(w: World, stmt: string, count: int, a: State, b: State, m: int, n: int)
    requires Related(a, b) && Halted(a.verdict) && stmt != "" && stmt[0] != '@'
    requires NoDollar(stmt[1..]) && '\0' !in stmt && 0 <= n <= m < MAX_SCRIPT_FILE_DEPTH
    ensures SameResult(Consider(w, stmt, count, a, m), Consider(w, stmt, count, b, n))
  {
    AddBoth(a, b, SkippedOver(stmt), SkippedOver(stmt));
  }

  lemma {:induction false} StepRelated(w: World, raw: string, a: State, b: State, m: int, n: int)
    requires Related(a, b) && raw != "" && '\0' !in raw
    requires 0 <= n <= m < MAX_SCRIPT_FILE_DEPTH
    requires OpenFailures(Step(w, raw, a, m).state.trace) == OpenFailures(a.trace)
    ensures SameResult(Step(w, raw, a, m), Step(w, raw, b, n))
    decreases MAX_SCRIPT_FILE_DEPTH - m, 3, 0
  {
    var e := Expand(raw, a.vars);
    if e.None? {
      AddBoth(a, b, ExpandFailed(m, raw), ExpandFailed(n, raw));
    } else {
      ExpandIsFinal(raw, a.vars);
      var x, y := Expanded(m, raw, e.value.text), Expanded(n, raw, e.value.text);
      AddBoth(a, b, x, y);
      FailuresSnoc(a.trace, x);
      ConsiderRelated(w, e.value.text, e.value.count, Log(a, x), Log(b, y), m, n);
    }
  }

  /** Runs of the same statements from related states stay related, at whatever depth the
      second runs, as long as the first, deeper one opens all its files. */
  lemma {:induction false} RunRelated(w: World, ss: seq<string>, ret: int, a: State, b: State, m: int, n: int)
    requires Related(a, b) && Readable(ss)
    requires 0 <= n <= m < MAX_SCRIPT_FILE_DEPTH
    requires OpenFailures(RunStatements(w, ss, ret, a, m).state.trace) == OpenFailures(a.trace)
    ensures SameResult(RunStatements(w, ss, ret, a, m), RunStatements(w, ss, ret, b, n))
    decreases MAX_SCRIPT_FILE_DEPTH - m, 4, |ss|
  {
    if ss != [] {
      var r, q := Step(w, ss[0], a, m), Step(w, ss[0], b, n);
      StepFailures(w, ss[0], a, m);
      RunFailures(w, ss[1..], r.ret, r.state, m);
      StepRelated(w, ss[0], a, b, m, n);
      RunRelated(w, ss[1..], r.ret, r.state, q.state, m, n);
    }
  }

  lemma {:induction false} ProcessRelated(w: World, name: string, a: State, b: State, m: int, n: int)
    requires Related(a, b)
    requires -1 <= n <= m < MAX_SCRIPT_FILE_DEPTH
    requires OpenFailures(ProcessFile(w, name, a, m).state.trace) == OpenFailures(a.trace)
    ensures SameResult(ProcessFile(w, name, a, m), ProcessFile(w, name, b, n))
    decreases MAX_SCRIPT_FILE_DEPTH - m, 0, 0
  {
    ProcessOpens(w, name, a, m);
    EnterBoth(a, b, name);
    RunRelated(w, w.files[name], SUCCESS, Log(a, Entered(name)), Log(b, Entered(name)), m + 1, n + 1);
    ProcessIs(w, name, a, m);
    ProcessIs(w, name, b, n);
  }

  /** What a file that can be opened comes to. */
  function Inner(w: World, name: string, s: State, depth: int): Result
    requires -1 <= depth < MAX_SCRIPT_FILE_DEPTH && CanOpen(w, name, depth)
  {
    RunStatements(w, w.files[name], SUCCESS, Log(s, Entered(name)), depth + 1)
  }

  /** A file processed without a failed open was opened, and none failed inside. */
  lemma ProcessOpens(w: World, name: string, s: State, depth: int)
    requires -1 <= depth < MAX_SCRIPT_FILE_DEPTH
    requires OpenFailures(ProcessFile(w, name, s, depth).state.trace) == OpenFailures(s.trace)
    ensures CanOpen(w, name, depth)
    ensures OpenFailures(Inner(w, name, s, depth).state.trace) == OpenFailures(Log(s, Entered(name)).trace)
  {
    if !CanOpen(w, name, depth) {
      NotOpened(w, name, s, depth);
    }
    FailuresSnoc(s.trace, Entered(name));
  }

  lemma EnterBoth(a: State, b: State, name: string)
    requires Related(a, b)
    ensures Related(Log(a, Entered(name)), Log(b, Entered(name)))
    ensures OpenFailures(Log(a, Entered(name)).trace) == OpenFailures(a.trace)
  {
    AddBoth(a, b, Entered(name), Entered(name));
    FailuresSnoc(a.trace, Entered(name));
  }

  // ---------- Return values ----------

  lemma StepReturn(w: World, raw: string, s: State, depth: int)
    requires raw != "" && '\0' !in raw && 0 <= depth < MAX_SCRIPT_FILE_DEPTH
    ensures Step(w, raw, s, depth).ret == SUCCESS || Halted(Step(w, raw, s, depth).state.verdict)
  {
    if Expand(raw, s.vars).Some? {
      ExpandIsFinal(raw, s.vars);
    }
  }

  /** TestScriptProcess returns something other than SUCCESS, for a file it could open, only
      when the test case is FAILED or SKIPPED. */
  lemma {:induction false} ReturnMeansHalted(w: World, ss: seq<string>, ret: int, s: State, depth: int)
    requires Readable(ss)
    requires 0 <= depth < MAX_SCRIPT_FILE_DEPTH
    requires ret == SUCCESS || Halted(s.verdict)
    ensures var r := RunStatements(w, ss, ret, s, depth);
            r.ret == SUCCESS || Halted(r.state.verdict)
    decreases |ss|
  {
    if ss != [] {
      var r := Step(w, ss[0], s, depth);
      StepReturn(w, ss[0], s, depth);
      ReturnMeansHalted(w, ss[1..], r.ret, r.state, depth);
    }
  }

  lemma {:induction false} RunAppend(w: World, ss: seq<string>, tt: seq<string>, ret: int, s: State, depth: int)
    requires Readable(ss) && Readable(tt)
    requires 0 <= depth < MAX_SCRIPT_FILE_DEPTH
    ensures var r := RunStatements(w, ss, ret, s, depth);
            RunStatements(w, ss + tt, ret, s, depth) == RunStatements(w, tt, r.ret, r.state, depth)
    decreases |ss|
  {
    if ss == [] {
      assert ss + tt == tt;
    } else {
      assert (ss + tt)[1..] == ss[1..] + tt;
      var r := Step(w, ss[0], s, depth);
      RunAppend(w, ss[1..], tt, r.ret, r.state, depth);
    }
  }

  // ---------- Including is running in place ----------

  /** The statement `raw` includes the file `name` when it is reached in the state `s`. */
  predicate Includes(w: World, raw: string, s: State, depth: int, name: string) {
    && raw != "" && '\0' !in raw
    && 0 <= depth < MAX_SCRIPT_FILE_DEPTH
    && !Halted(s.verdict)
    && Expand(raw, s.vars).Some? && IsInclude(Expand(raw, s.vars).value.text)
    && IncludeName(Expand(raw, s.vars).value.text) == Some(name)
    && CanOpen(w, name, depth)
  }

  /** The include statement expanded, and the file entered. */
  function Inside(raw: string, s: State, depth: int, name: string): State
    requires raw != "" && Expand(raw, s.vars).Some?
  {
    Log(Log(s, Expanded(depth, raw, Expand(raw, s.vars).value.text)), Entered(name))
  }

  lemma InsideRelated(w: World, raw: string, s: State, depth: int, name: string)
    requires Includes(w, raw, s, depth, name)
    ensures Related(Inside(raw, s, depth, name), s)
    ensures OpenFailures(Inside(raw, s, depth, name).trace) == OpenFailures(s.trace)
  {
    var x := Expanded(depth, raw, Expand(raw, s.vars).value.text);
    BareSnoc(s.trace, x);
    BareSnoc(s.trace + [x], Entered(name));
    FailuresSnoc(s.trace, x);
    FailuresSnoc(s.trace + [x], Entered(name));
    assert BareTrace(s.trace) + [] + [] == BareTrace(s.trace);
  }

  lemma IncludeUnfold(w: World, raw: string, s: State, depth: int, name: string)
    requires Includes(w, raw, s, depth, name)
    ensures Step(w, raw, s, depth) ==
            Finish(Expand(raw, s.vars).value.text,
                         RunStatements(w, w.files[name], SUCCESS, Inside(raw, s, depth, name), depth + 1))
  {
    var e := Expand(raw, s.vars).value;
    var s' := Log(s, Expanded(depth, raw, e.text));
    StepIs(w, raw, s, depth);
    ConsiderInclude(w, e.text, e.count, s', depth, name);
    ProcessIs(w, name, s', depth);
  }

  lemma ConsiderInclude(w: World, stmt: string, count: int, s: State, depth: int, name: string)
    requires stmt != "" && NoDollar(stmt[1..]) && '\0' !in stmt && 0 <= depth < MAX_SCRIPT_FILE_DEPTH
    requires IsInclude(stmt) && IncludeName(stmt) == Some(name) && !Halted(s.verdict)
    ensures Consider(w, stmt, count, s, depth) == Finish(stmt, ProcessFile(w, name, s, depth))
  {
    ConsiderIs(w, stmt, count, s, depth);
  }

  lemma FinishRelated(stmt: string, r: Result, q: Result)
    requires SameResult(r, q) && IsInclude(stmt) && (r.ret == SUCCESS || Halted(r.state.verdict))
    ensures SameResult(Finish(stmt, r), q)
    ensures OpenFailures(Finish(stmt, r).state.trace) == OpenFailures(r.state.trace)
  {
    BareSnoc(r.state.trace, Ran(stmt, r.ret));
    FailuresSnoc(r.state.trace, Ran(stmt, r.ret));
  }

  /** One include: the file runs one level deeper as its statements would in place. */
  lemma IncludeStep(w: World, raw: string, s: State, depth: int, name: string)
    requires Includes(w, raw, s, depth, name)
    requires OpenFailures(Step(w, raw, s, depth).state.trace) == OpenFailures(s.trace)
    ensures SameResult(Step(w, raw, s, depth), RunStatements(w, w.files[name], SUCCESS, s, depth))
  {
    IncludeOpens(w, raw, s, depth, name);
    InsideRuns(w, raw, s, depth, name);
    IncludeSame(Expand(raw, s.vars).value.text, Step(w, raw, s, depth),
                RunStatements(w, w.files[name], SUCCESS, Inside(raw, s, depth, name), depth + 1),
                RunStatements(w, w.files[name], SUCCESS, s, depth));
  }

  lemma InsideRuns(w: World, raw: string, s: State, depth: int, name: string)
    requires Includes(w, raw, s, depth, name)
    requires OpenFailures(RunStatements(w, w.files[name], SUCCESS, Inside(raw, s, depth, name), depth + 1).state.trace)
             == OpenFailures(Inside(raw, s, depth, name).trace)
    ensures var r := RunStatements(w, w.files[name], SUCCESS, Inside(raw, s, depth, name), depth + 1);
            && SameResult(r, RunStatements(w, w.files[name], SUCCESS, s, depth))
            && (r.ret == SUCCESS || Halted(r.state.verdict))
  {
    InsideRelated(w, raw, s, depth, name);
    var s' := Inside(raw, s, depth, name);
    ReturnMeansHalted(w, w.files[name], SUCCESS, s', depth + 1);
    RunRelated(w, w.files[name], SUCCESS, s', s, depth + 1, depth);
  }

  lemma IncludeSame(stmt: string, step: Result, r: Result, q: Result)
    requires step == Finish(stmt, r) && SameResult(r, q)
    requires IsInclude(stmt) && (r.ret == SUCCESS || Halted(r.state.verdict))
    ensures SameResult(step, q)
  {
    FinishRelated(stmt, r, q);
  }

  lemma IncludeOpens(w: World, raw: string, s: State, depth: int, name: string)
    requires Includes(w, raw, s, depth, name)
    requires OpenFailures(Step(w, raw, s, depth).state.trace) == OpenFailures(s.trace)
    ensures var r := RunStatements(w, w.files[name], SUCCESS, Inside(raw, s, depth, name), depth + 1);
            && Step(w, raw, s, depth) == Finish(Expand(raw, s.vars).value.text, r)
            && OpenFailures(r.state.trace) == OpenFailures(Inside(raw, s, depth, name).trace)
  {
    IncludeUnfold(w, raw, s, depth, name);
    InsideRelated(w, raw, s, depth, name);
    var r := RunStatements(w, w.files[name], SUCCESS, Inside(raw, s, depth, name), depth + 1);
    FailuresSnoc(r.state.trace, Ran(Expand(raw, s.vars).value.text, r.ret));
  }

  lemma RunFromSuccess(w: World, ss: seq<string>, ret: int, s: State, depth: int)
    requires Readable(ss) && 0 <= depth < MAX_SCRIPT_FILE_DEPTH
    ensures RunStatements(w, ss, ret, s, depth).state == RunStatements(w, ss, SUCCESS, s, depth).state
    ensures ss != [] ==> RunStatements(w, ss, ret, s, depth).ret == RunStatements(w, ss, SUCCESS, s, depth).ret
  {
  }

  /** Include equals inlining: when an include is reached in a state that is not halted and all
      files can be opened, going on with the rest of the script leaves what running the
      statements of the file in place of the include leaves: the same variables, ports, queues,
      traffic, statements executed and reports, taking FAILED and SKIPPED for one. */
  lemma IncludeIsInlining(w: World, raw: string, rest: seq<string>, ret: int, s: State, depth: int, name: string)
    requires Includes(w, raw, s, depth, name) && Readable(rest)
    requires OpenFailures(RunStatements(w, [raw] + rest, ret, s, depth).state.trace) == OpenFailures(s.trace)
    ensures Related(RunStatements(w, [raw] + rest, ret, s, depth).state,
                    RunStatements(w, w.files[name] + rest, ret, s, depth).state)
    ensures w.files[name] + rest != [] ==>
              RunStatements(w, [raw] + rest, ret, s, depth).ret ==
              RunStatements(w, w.files[name] + rest, ret, s, depth).ret
  {
    var ss := w.files[name];
    var r := Step(w, raw, s, depth);
    assert ([raw] + rest)[1..] == rest;
    StepFailures(w, raw, s, depth);
    RunFailures(w, rest, r.ret, r.state, depth);
    IncludeStep(w, raw, s, depth, name);
    var q := RunStatements(w, ss, SUCCESS, s, depth);
    RunRelated(w, rest, r.ret, r.state, q.state, depth, depth);
    RunAppend(w, ss, rest, SUCCESS, s, depth);
    RunFromSuccess(w, ss + rest, ret, s, depth);
  }

  // ---------- What related states have in common ----------

  function SentOf(t: seq<Event>): seq<Event> {
    if t == [] then []
    else SentOf(t[..|t| - 1]) + (if t[|t| - 1].Sent? then [t[|t| - 1]] else [])
  }

  lemma ShownSnoc(t: seq<Event>, u: seq<Event>)
    requires |u| <= 1
    ensures SentOf(t + u) == SentOf(t) + (if u != [] && u[0].Sent? then u else [])
    ensures ReportedIds(t + u) == ReportedIds(t) + (if u != [] && u[0].Reported? then [u[0].id] else [])
    ensures AcceptedIds(t + u) == AcceptedIds(t) + (if u != [] && u[0].Accepted? then [u[0].id] else [])
  {
    if u == [] {
      assert t + u == t;
    } else {
      assert (t + u)[..|t|] == t && u == [u[0]];
    }
  }

  lemma BareKeepsShown(e: Event)
    ensures |Bare(e)| <= 1
    ensures e.Sent? ==> Bare(e) == [e]
    ensures e.Reported? ==> Bare(e) != [] && Bare(e)[0].Reported? && Bare(e)[0].id == e.id
    ensures e.Accepted? ==> Bare(e) == [e]
    ensures Bare(e) != [] ==> (Bare(e)[0].Sent? <==> e.Sent?) && (Bare(e)[0].Reported? <==> e.Reported?)
                              && (Bare(e)[0].Accepted? <==> e.Accepted?)
  {
  }

  lemma {:induction false} BareSent(t: seq<Event>)
    ensures SentOf(BareTrace(t)) == SentOf(t)
    ensures ReportedIds(BareTrace(t)) == ReportedIds(t)
    ensures AcceptedIds(BareTrace(t)) == AcceptedIds(t)
  {
    if t != [] {
      var front, e := t[..|t| - 1], t[|t| - 1];
      BareSent(front);
      BareKeepsShown(e);
      BareShown(BareTrace(front), e, Bare(e));
    }
  }

  lemma BareShown(u: seq<Event>, e: Event, bare: seq<Event>)
    requires |bare| <= 1
    requires e.Sent? ==> bare == [e]
    requires e.Reported? ==> bare != [] && bare[0].Reported? && bare[0].id == e.id
    requires e.Accepted? ==> bare == [e]
    requires bare != [] ==> (bare[0].Sent? <==> e.Sent?) && (bare[0].Reported? <==> e.Reported?)
                            && (bare[0].Accepted? <==> e.Accepted?)
    ensures SentOf(u + bare) == SentOf(u) + (if e.Sent? then [e] else [])
    ensures ReportedIds(u + bare) == ReportedIds(u) + (if e.Reported? then [e.id] else [])
    ensures AcceptedIds(u + bare) == AcceptedIds(u) + (if e.Accepted? then [e.id] else [])
  {
    ShownSnoc(u, bare);
  }

  /** Related runs sent the same packets and reported the same test cases in the same order. */
  lemma RelatedShow(a: State, b: State)
    requires Related(a, b)
    ensures SentOf(a.trace) == SentOf(b.trace)
    ensures ReportedIds(a.trace) == ReportedIds(b.trace)
    ensures AcceptedIds(a.trace) == AcceptedIds(b.trace)
  {
    BareSent(a.trace);
    BareSent(b.trace);
  }

  // ---------- What an include does to FAILED ----------

  /** The last statement leaves FAILED: it was passed over, or it ran with success. */
  lemma LastLeavesFailed(w: World, last: string, s: State, depth: int)
    requires last != "" && '\0' !in last && 0 <= depth < MAX_SCRIPT_FILE_DEPTH
    requires Step(w, last, s, depth).state.verdict == Failed
    ensures Expand(last, s.vars).Some?
    ensures Step(w, last, s, depth).ret ==
            if last[0] != '@' && s.verdict == Failed then Expand(last, s.vars).value.count else SUCCESS
  {
    StepIs(w, last, s, depth);
    var e := Expand(last, s.vars).value;
    var x := Log(s, Expanded(depth, last, e.text));
    if last[0] == '@' || !Halted(s.verdict) {
      ConsiderIs(w, e.text, e.count, x, depth);
    }
  }

  /** FAILED and includes, for every file that ends FAILED: the test case is still FAILED after the
      include, and not SKIPPED, exactly when the last statement of the file was not passed
      over in a failed test case, or had just one variable. */
  lemma FailedSurvives(w: World, raw: string, s: State, depth: int, name: string, ss: seq<string>, last: string)
    requires Includes(w, raw, s, depth, name) && depth + 1 < MAX_SCRIPT_FILE_DEPTH
    requires Readable(ss) && last != "" && '\0' !in last && w.files[name] == ss + [last]
    requires RunStatements(w, ss + [last], SUCCESS, Inside(raw, s, depth, name), depth + 1).state.verdict == Failed
    ensures var s' := RunStatements(w, ss, SUCCESS, Inside(raw, s, depth, name), depth + 1).state;
            && Expand(last, s'.vars).Some?
            && Step(w, raw, s, depth).state.verdict ==
               if last[0] != '@' && s'.verdict == Failed && Expand(last, s'.vars).value.count != 1 then Skipped else Failed
  {
    var inside := Inside(raw, s, depth, name);
    var r := RunStatements(w, ss, SUCCESS, inside, depth + 1);
    IncludeUnfold(w, raw, s, depth, name);
    RunAppend(w, ss, [last], SUCCESS, inside, depth + 1);
    RunOne(w, last, r.ret, r.state, depth + 1);
    LastLeavesFailed(w, last, r.state, depth + 1);
  }

  /** A file whose last statement cannot be expanded returns -1, and the include that ran it shows
      that value and leaves SKIPPED. */
  lemma LastUnexpanded(w: World, raw: string, s: State, depth: int, name: string, ss: seq<string>, last: string)
    requires Includes(w, raw, s, depth, name) && depth + 1 < MAX_SCRIPT_FILE_DEPTH
    requires Readable(ss) && last != "" && '\0' !in last && w.files[name] == ss + [last]
    requires Expand(last, RunStatements(w, ss, SUCCESS, Inside(raw, s, depth, name), depth + 1).state.vars).None?
    ensures var r := Step(w, raw, s, depth);
            && r.ret == -1 && r.state.verdict == Skipped
            && r.state.trace != [] && r.state.trace[|r.state.trace| - 1] == Ran(Expand(raw, s.vars).value.text, -1)
  {
    hide Expand, Inside, RunStatements, IncludeName, Step;
    var inside := Inside(raw, s, depth, name);
    var r := RunStatements(w, ss, SUCCESS, inside, depth + 1);
    IncludeUnfold(w, raw, s, depth, name);
    RunAppend(w, ss, [last], SUCCESS, inside, depth + 1);
    RunOne(w, last, r.ret, r.state, depth + 1);
    StepRefuses(w, last, r.state, depth + 1);
  }

  lemma LastPassedOver(w: World, last: string, s: State, depth: int)
    requires last != "" && '\0' !in last && 0 <= depth < MAX_SCRIPT_FILE_DEPTH
    requires s.verdict == Failed && Expand(last, s.vars).Some? && last[0] != '@'
    ensures Step(w, last, s, depth).state.verdict == Failed
  {
    StepIs(w, last, s, depth);
  }

  /** A file whose last statement is passed over in a failed test case returns the number of
      variables of that statement: after the include the test case is still FAILED exactly
      when that number is one, and SKIPPED otherwise. */
  lemma SkippedLastStatement(w: World, raw: string, s: State, depth: int, name: string, ss: seq<string>, last: string)
    requires Includes(w, raw, s, depth, name) && depth + 1 < MAX_SCRIPT_FILE_DEPTH
    requires Readable(ss) && last != "" && '\0' !in last && w.files[name] == ss + [last]
    requires var s' := RunStatements(w, ss, SUCCESS, Inside(raw, s, depth, name), depth + 1).state;
             s'.verdict == Failed && Expand(last, s'.vars).Some? && last[0] != '@'
    ensures var s' := RunStatements(w, ss, SUCCESS, Inside(raw, s, depth, name), depth + 1).state;
            Step(w, raw, s, depth).state.verdict ==
            if Expand(last, s'.vars).value.count == 1 then Failed else Skipped
  {
    var inside := Inside(raw, s, depth, name);
    var r := RunStatements(w, ss, SUCCESS, inside, depth + 1);
    RunAppend(w, ss, [last], SUCCESS, inside, depth + 1);
    RunOne(w, last, r.ret, r.state, depth + 1);
    LastPassedOver(w, last, r.state, depth + 1);
    FailedSurvives(w, raw, s, depth, name, ss, last);
  }
}
