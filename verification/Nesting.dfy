/** Events are properly nested in the statements that cause them, and no statement is left
    half done. */
module Nesting {
  import opened Text
  import opened Variables
  import opened Expansion
  import opened Ports
  import opened Trace
  import opened Interpreter
  import opened StatementEvents

  /** The statements being executed after one more event, an include in front of the statements
      of its file; None when the event does not belong there. A statement is read at the depth
      of the includes around it and ends by being passed over or having run. */
  function NextOpen(now: Option<seq<string>>, e: Event): Option<seq<string>> {
    if now.None? then None
    else
      var open := now.value;
      match e
      case Expanded(depth, _, stmt) => if depth == |open| && stmt != "" then Some(open + [stmt]) else None
      case ExpandFailed(depth, _) => if depth == |open| then now else None
      case SkippedOver(stmt) => Close(open, stmt)
      case Ran(stmt, _) => Close(open, stmt)
      case Entered(_) => if open == [] || IsInclude(open[|open| - 1]) then now else None
      case OpenFailed(_) => if open == [] || IsInclude(open[|open| - 1]) then now else None
      case _ => if Belongs(open, e) then now else None
  }

  function Close(open: seq<string>, stmt: string): Option<seq<string>> {
    if open != [] && open[|open| - 1] == stmt then Some(open[..|open| - 1]) else None
  }

  predicate Belongs(open: seq<string>, e: Event) {
    if open == [] then e.Unexpected? || e.Reported?
    else open[|open| - 1] != "" && MayShow(open[|open| - 1], e)
  }

  function OpenAt(t: seq<Event>): Option<seq<string>> {
    if t == [] then Some([]) else NextOpen(OpenAt(t[..|t| - 1]), t[|t| - 1])
  }

  lemma OpenSnoc(t: seq<Event>, e: Event)
    ensures OpenAt(t + [e]) == NextOpen(OpenAt(t), e)
  {
    assert (t + [e])[..|t|] == t;
  }

  lemma {:induction false} OpenShown(stmt: string, t: seq<Event>, u: seq<Event>, open: seq<string>)
    requires stmt != "" && Shows(stmt, t, u) && OpenAt(t) == Some(open + [stmt])
    ensures OpenAt(u) == OpenAt(t)
    decreases |u|
  {
    if u != t {
      OpenShown(stmt, t, u[..|u| - 1], open);
    }
  }

  lemma {:induction false} OpenUnexpected(t: seq<Event>, found: seq<Capture>)
    requires OpenAt(t) == Some([])
    ensures OpenAt(t + Unexpecteds(found)) == Some([])
  {
    if found == [] {
      assert t + Unexpecteds(found) == t;
    } else {
      var front, last := found[..|found| - 1], found[|found| - 1];
      OpenUnexpected(t, front);
      UnexpectedsSnoc(t, found);
      OpenSnoc(t + Unexpecteds(front), Unexpected(last.port, last.data));
    }
  }

  lemma {:induction false} ExecuteNests(w: World, stmt: string, s: State, depth: int, open: seq<string>)
    requires stmt != "" && NoDollar(stmt[1..]) && '\0' !in stmt
    requires 0 <= depth < MAX_SCRIPT_FILE_DEPTH
    requires OpenAt(s.trace) == Some(open + [stmt]) && |open| == depth
    ensures OpenAt(Execute(w, stmt, s, depth).state.trace) == Some(open + [stmt])
    decreases MAX_SCRIPT_FILE_DEPTH - depth, 1, 0
  {
    if !IsInclude(stmt) {
      PlainShows(w, stmt, s, depth);
      OpenShown(stmt, s.trace, Execute(w, stmt, s, depth).state.trace, open);
    } else if IncludeName(stmt).Some? {
      ProcessNests(w, IncludeName(stmt).value, s, depth, open + [stmt]);
    }
  }

  lemma {:induction false} ConsiderNests(w: World, stmt: string, count: int, s: State, depth: int, open: seq<string>)
    requires stmt != "" && NoDollar(stmt[1..]) && '\0' !in stmt
    requires 0 <= depth < MAX_SCRIPT_FILE_DEPTH
    requires OpenAt(s.trace) == Some(open + [stmt]) && |open| == depth
    ensures OpenAt(Consider(w, stmt, count, s, depth).state.trace) == Some(open)
    decreases MAX_SCRIPT_FILE_DEPTH - depth, 2, 0
  {
    hide Execute, MayShow;
    assert (open + [stmt])[..|open|] == open;
    if stmt[0] != '@' && Halted(s.verdict) {
      OpenSnoc(s.trace, SkippedOver(stmt));
    } else {
      ExecuteNests(w, stmt, s, depth, open);
      var r := Execute(w, stmt, s, depth);
      OpenSnoc(r.state.trace, Ran(stmt, r.ret));
    }
  }

  /** One round of the loop leaves open what was open before it. */
  lemma {:induction false} StepNests(w: World, raw: string, s: State, depth: int, open: seq<string>)
    requires raw != "" && '\0' !in raw
    requires 0 <= depth < MAX_SCRIPT_FILE_DEPTH
    requires OpenAt(s.trace) == Some(open) && |open| == depth
    ensures OpenAt(Step(w, raw, s, depth).state.trace) == Some(open)
    decreases MAX_SCRIPT_FILE_DEPTH - depth, 3, 0
  {
    var e := Expand(raw, s.vars);
    if e.None? {
      OpenSnoc(s.trace, ExpandFailed(depth, raw));
    } else {
      StepIs(w, raw, s, depth);
      OpenSnoc(s.trace, Expanded(depth, raw, e.value.text));
      ConsiderNests(w, e.value.text, e.value.count, Log(s, Expanded(depth, raw, e.value.text)), depth, open);
    }
  }

  lemma {:induction false} RunNests(w: World, ss: seq<string>, ret: int, s: State, depth: int, open: seq<string>)
    requires Readable(ss)
    requires 0 <= depth < MAX_SCRIPT_FILE_DEPTH
    requires OpenAt(s.trace) == Some(open) && |open| == depth
    ensures OpenAt(RunStatements(w, ss, ret, s, depth).state.trace) == Some(open)
    decreases MAX_SCRIPT_FILE_DEPTH - depth, 4, |ss|
  {
    if ss != [] {
      StepNests(w, ss[0], s, depth, open);
      var r := Step(w, ss[0], s, depth);
      RunNests(w, ss[1..], r.ret, r.state, depth, open);
    }
  }

  /** A file is run inside the statement that includes it, or as the script itself. */
  lemma {:induction false} ProcessNests(w: World, name: string, s: State, depth: int, open: seq<string>)
    requires -1 <= depth < MAX_SCRIPT_FILE_DEPTH
    requires OpenAt(s.trace) == Some(open) && |open| == depth + 1
    requires open == [] || IsInclude(open[|open| - 1])
    ensures OpenAt(ProcessFile(w, name, s, depth).state.trace) == Some(open)
    decreases MAX_SCRIPT_FILE_DEPTH - depth, 0, 0
  {
    hide RunStatements;
    if !CanOpen(w, name, depth) {
      OpenSnoc(s.trace, OpenFailed(name));
    } else {
      ProcessIs(w, name, s, depth);
      OpenSnoc(s.trace, Entered(name));
      RunNests(w, w.files[name], SUCCESS, Log(s, Entered(name)), depth + 1, open);
    }
  }

  /** The report behind the script belongs to no statement. */
  lemma CleanupNests(w: World, s: State)
    requires OpenAt(s.trace) == Some([])
    ensures OpenAt(Cleanup(w, s).trace) == Some([])
  {
    hide Drain, MayShow;
    OpenUnexpected(s.trace, Drain(w.cfg, s.dev.net).found);
    var c := CheckQueues(w, s);
    OpenSnoc(c.trace, Reported(c.id, c.verdict));
  }

  /** A whole run is properly nested and leaves nothing open: each statement that was read and
      expanded was passed over or run, each one of a file while the statement that includes the
      file runs, and each packet, variable, test case and report belongs to the statement being
      executed, but for the last report. */
  lemma ProgramNests(w: World, name: string, future: seq<Tick>)
    ensures OpenAt(Program(w, name, future).trace) == Some([])
  {
    ProcessNests(w, name, Initial(future), -1, []);
    CleanupNests(w, ProcessFile(w, name, Initial(future), -1).state);
  }
}
