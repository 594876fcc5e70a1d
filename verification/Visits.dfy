/** Where the events of a run come from: each packet, variable, test case and report of a run is
    shown by a statement executed in a state of that run. What is known of one statement then
    holds for every event of every run. */
module Visits {
  import opened Variables
  import opened Expansion
  import opened Ports
  import opened Trace
  import opened Interpreter
  import opened StatementEvents
  import opened Conservation

  // ---------- The statements a run executes ----------

  predicate IsPlain(stmt: string) {
    stmt != "" && NoDollar(stmt[1..]) && '\0' !in stmt && !IsInclude(stmt)
  }

  type PlainStatement = s: string | IsPlain(s) witness "@"

  /** A statement other than an include, and the state in which it is executed. */
  datatype Visit = Visit(stmt: PlainStatement, state: State)

  function Made(w: World, v: Visit): Result {
    RunPlain(w, v.stmt, v.state)
  }

  function VisitsOfExecute(w: World, stmt: string, s: State, depth: int): seq<Visit>
    requires stmt != "" && NoDollar(stmt[1..]) && '\0' !in stmt
    requires 0 <= depth < MAX_SCRIPT_FILE_DEPTH
    decreases MAX_SCRIPT_FILE_DEPTH - depth, 1, 0
  {
    if !IsInclude(stmt) then [Visit(stmt, s)]
    else if IncludeName(stmt).Some? then VisitsOfFile(w, IncludeName(stmt).value, s, depth)
    else []
  }

  function VisitsOfStep(w: World, raw: string, s: State, depth: int): seq<Visit>
    requires raw != "" && '\0' !in raw
    requires 0 <= depth < MAX_SCRIPT_FILE_DEPTH
    decreases MAX_SCRIPT_FILE_DEPTH - depth, 2, 0
  {
    var e := Expand(raw, s.vars);
    if e.None? then []
    else
      StepIs(w, raw, s, depth);
      if e.value.text[0] != '@' && Halted(s.verdict) then []
      else VisitsOfExecute(w, e.value.text, Log(s, Expanded(depth, raw, e.value.text)), depth)
  }

  function VisitsOfRun(w: World, ss: seq<string>, s: State, depth: int): seq<Visit>
    requires Readable(ss)
    requires 0 <= depth < MAX_SCRIPT_FILE_DEPTH
    decreases MAX_SCRIPT_FILE_DEPTH - depth, 3, |ss|
  {
    if ss == [] then []
    else VisitsOfStep(w, ss[0], s, depth) + VisitsOfRun(w, ss[1..], Step(w, ss[0], s, depth).state, depth)
  }

  function VisitsOfFile(w: World, name: string, s: State, depth: int): seq<Visit>
    requires -1 <= depth < MAX_SCRIPT_FILE_DEPTH
    decreases MAX_SCRIPT_FILE_DEPTH - depth, 0, 0
  {
    if CanOpen(w, name, depth) then VisitsOfRun(w, w.files[name], Log(s, Entered(name)), depth + 1) else []
  }

  /** All statements a whole run executes, and the state in which the script ends. */
  function VisitsOf(w: World, name: string, future: seq<Tick>): seq<Visit> {
    VisitsOfFile(w, name, Initial(future), -1)
  }

  function EndOf(w: World, name: string, future: seq<Tick>): State {
    ProcessFile(w, name, Initial(future), -1).state
  }

  // ---------- Every event comes from a statement ----------

  /** The event is not one of the loop over statements, nor of opening a file. */
  predicate IsInner(e: Event) {
    && !e.ExpandFailed? && !e.Expanded? && !e.SkippedOver? && !e.Ran?
    && !e.OpenFailed? && !e.Entered?
  }

  /** The statement shows the event `t[i]`, and has shown all since the state it was executed in. */
  predicate ShownAt(w: World, v: Visit, t: seq<Event>, i: nat)
    requires i < |t|
  {
    |v.state.trace| <= i && t[..i + 1] <= Made(w, v).state.trace
  }

  ghost predicate FromVisit(w: World, vs: seq<Visit>, t: seq<Event>, i: nat)
    requires i < |t|
  {
    exists v :: v in vs && ShownAt(w, v, t, i)
  }

  /** The books of all ports are in order. */
  ghost predicate InOrder(w: World, start: seq<Tick>, s: State) {
    forall name :: Books(w, start, s, name)
  }

  ghost predicate Covered(w: World, start: seq<Tick>, vs: seq<Visit>, t: seq<Event>) {
    && (forall i :: 0 <= i < |t| && IsInner(t[i]) ==> FromVisit(w, vs, t, i))
    && (forall v :: v in vs ==> InOrder(w, start, v.state))
  }

  /** Going on with events that are no inner ones, or that a visit shows. */
  lemma CoveredMore(w: World, start: seq<Tick>, vs: seq<Visit>, more: seq<Visit>, t: seq<Event>, u: seq<Event>)
    requires Covered(w, start, vs, t) && t <= u && forall v :: v in more ==> InOrder(w, start, v.state)
    requires forall i :: |t| <= i < |u| && IsInner(u[i]) ==> FromVisit(w, more, u, i)
    ensures Covered(w, start, vs + more, u)
  {
    forall i | 0 <= i < |u| && IsInner(u[i]) ensures FromVisit(w, vs + more, u, i) {
      if i < |t| {
        assert FromVisit(w, vs, t, i);
        var v :| v in vs && ShownAt(w, v, t, i);
        assert u[..i + 1] == t[..i + 1];
        assert v in vs + more && ShownAt(w, v, u, i);
      } else {
        assert FromVisit(w, more, u, i);
        var v :| v in more && ShownAt(w, v, u, i);
        assert v in vs + more && ShownAt(w, v, u, i);
      }
    }
  }

  lemma CoveredSnoc(w: World, start: seq<Tick>, vs: seq<Visit>, t: seq<Event>, e: Event)
    requires Covered(w, start, vs, t) && !IsInner(e)
    ensures Covered(w, start, vs, t + [e])
  {
    CoveredMore(w, start, vs, [], t, t + [e]);
    assert vs + [] == vs;
  }

  lemma {:induction false} ShowsExtends(stmt: string, t: seq<Event>, u: seq<Event>)
    requires stmt != "" && Shows(stmt, t, u)
    ensures t <= u
    decreases |u|
  {
    if u != t {
      ShowsExtends(stmt, t, u[..|u| - 1]);
    }
  }

  lemma PlainCovered(w: World, start: seq<Tick>, vs: seq<Visit>, stmt: PlainStatement, s: State)
    requires Covered(w, start, vs, s.trace) && InOrder(w, start, s)
    ensures Covered(w, start, vs + [Visit(stmt, s)], RunPlain(w, stmt, s).state.trace)
  {
    var v := Visit(stmt, s);
    var u := RunPlain(w, stmt, s).state.trace;
    PlainShows(w, stmt, s, 0);
    ShowsExtends(stmt, s.trace, u);
    forall i | |s.trace| <= i < |u| ensures FromVisit(w, [v], u, i) {
      assert v in [v] && ShownAt(w, v, u, i);
    }
    hide Covered;
    CoveredMore(w, start, vs, [v], s.trace, u);
  }

  lemma LogInOrder(w: World, start: seq<Tick>, s: State, e: Event)
    requires InOrder(w, start, s) && (e.Expanded? || e.Entered?)
    ensures InOrder(w, start, Log(s, e))
  {
    forall name ensures Books(w, start, Log(s, e), name) { LogBooks(w, start, s, e, name); }
  }

  lemma StepInOrder(w: World, start: seq<Tick>, raw: string, s: State, depth: int)
    requires InOrder(w, start, s) && raw != "" && '\0' !in raw && 0 <= depth < MAX_SCRIPT_FILE_DEPTH
    ensures InOrder(w, start, Step(w, raw, s, depth).state)
  {
    forall name ensures Books(w, start, Step(w, raw, s, depth).state, name) { StepBooks(w, start, raw, s, depth, name); }
  }

  lemma {:induction false} ExecuteCovered(w: World, start: seq<Tick>, vs: seq<Visit>, stmt: string, s: State, depth: int)
    requires Covered(w, start, vs, s.trace) && InOrder(w, start, s)
    requires stmt != "" && NoDollar(stmt[1..]) && '\0' !in stmt
    requires 0 <= depth < MAX_SCRIPT_FILE_DEPTH
    ensures Covered(w, start, vs + VisitsOfExecute(w, stmt, s, depth), Execute(w, stmt, s, depth).state.trace)
    decreases MAX_SCRIPT_FILE_DEPTH - depth, 1, 0
  {
    hide Covered, InOrder, RunPlain;
    assert vs + [] == vs;
    if !IsInclude(stmt) {
      PlainCovered(w, start, vs, stmt, s);
    } else if IncludeName(stmt).Some? {
      FileCovered(w, start, vs, IncludeName(stmt).value, s, depth);
    }
  }

  lemma {:induction false} StepCovered(w: World, start: seq<Tick>, vs: seq<Visit>, raw: string, s: State, depth: int)
    requires Covered(w, start, vs, s.trace) && InOrder(w, start, s)
    requires raw != "" && '\0' !in raw && 0 <= depth < MAX_SCRIPT_FILE_DEPTH
    ensures Covered(w, start, vs + VisitsOfStep(w, raw, s, depth), Step(w, raw, s, depth).state.trace)
    decreases MAX_SCRIPT_FILE_DEPTH - depth, 2, 0
  {
    hide Covered, InOrder, Execute, VisitsOfExecute;
    assert vs + [] == vs;
    var e := Expand(raw, s.vars);
    if e.None? {
      CoveredSnoc(w, start, vs, s.trace, ExpandFailed(depth, raw));
    } else {
      StepIs(w, raw, s, depth);
      var x := Log(s, Expanded(depth, raw, e.value.text));
      CoveredSnoc(w, start, vs, s.trace, Expanded(depth, raw, e.value.text));
      LogInOrder(w, start, s, Expanded(depth, raw, e.value.text));
      if e.value.text[0] != '@' && Halted(s.verdict) {
        CoveredSnoc(w, start, vs, x.trace, SkippedOver(e.value.text));
      } else {
        ConsiderIs(w, e.value.text, e.value.count, x, depth);
        ExecuteCovered(w, start, vs, e.value.text, x, depth);
        var r := Execute(w, e.value.text, x, depth);
        CoveredSnoc(w, start, vs + VisitsOfExecute(w, e.value.text, x, depth), r.state.trace, Ran(e.value.text, r.ret));
      }
    }
  }

  lemma {:induction false} RunCovered(w: World, start: seq<Tick>, vs: seq<Visit>, ss: seq<string>, ret: int, s: State, depth: int)
    requires Covered(w, start, vs, s.trace) && InOrder(w, start, s) && Readable(ss)
    requires 0 <= depth < MAX_SCRIPT_FILE_DEPTH
    ensures Covered(w, start, vs + VisitsOfRun(w, ss, s, depth), RunStatements(w, ss, ret, s, depth).state.trace)
    decreases MAX_SCRIPT_FILE_DEPTH - depth, 3, |ss|
  {
    hide Covered, InOrder, Step, VisitsOfStep;
    if ss == [] {
      assert vs + [] == vs;
    } else {
      var r := Step(w, ss[0], s, depth);
      var now := VisitsOfStep(w, ss[0], s, depth);
      StepCovered(w, start, vs, ss[0], s, depth);
      StepInOrder(w, start, ss[0], s, depth);
      RunCovered(w, start, vs + now, ss[1..], r.ret, r.state, depth);
      assert vs + now + VisitsOfRun(w, ss[1..], r.state, depth) == vs + (now + VisitsOfRun(w, ss[1..], r.state, depth));
    }
  }

  lemma {:induction false} FileCovered(w: World, start: seq<Tick>, vs: seq<Visit>, name: string, s: State, depth: int)
    requires Covered(w, start, vs, s.trace) && InOrder(w, start, s) && -1 <= depth < MAX_SCRIPT_FILE_DEPTH
    ensures Covered(w, start, vs + VisitsOfFile(w, name, s, depth), ProcessFile(w, name, s, depth).state.trace)
    decreases MAX_SCRIPT_FILE_DEPTH - depth, 0, 0
  {
    hide Covered, InOrder, RunStatements, VisitsOfRun;
    assert vs + [] == vs;
    if !CanOpen(w, name, depth) {
      CoveredSnoc(w, start, vs, s.trace, OpenFailed(name));
    } else {
      ProcessIs(w, name, s, depth);
      CoveredSnoc(w, start, vs, s.trace, Entered(name));
      LogInOrder(w, start, s, Entered(name));
      RunCovered(w, start, vs, w.files[name], SUCCESS, Log(s, Entered(name)), depth + 1);
    }
  }

  /** Each packet, variable, test case and report of a run comes from a statement executed in a state
      of the run, in which the books of all ports are in order; only the last report, and what the
      last look at the queues finds, come behind the script. */
  lemma ProgramVisits(w: World, name: string, future: seq<Tick>)
    ensures Covered(w, future, VisitsOf(w, name, future), EndOf(w, name, future).trace)
    ensures InOrder(w, future, EndOf(w, name, future))
    ensures EndOf(w, name, future).trace <= Program(w, name, future).trace
    ensures Program(w, name, future) == Cleanup(w, EndOf(w, name, future))
  {
    var s := Initial(future);
    forall n ensures Books(w, future, s, n) {}
    FileCovered(w, future, [], name, s, -1);
    assert [] + VisitsOf(w, name, future) == VisitsOf(w, name, future);
    forall n ensures Books(w, future, EndOf(w, name, future), n) { FileBooks(w, future, name, s, -1, n); }
    CleanupShows(w, "@", EndOf(w, name, future));
    ShowsExtends("@", EndOf(w, name, future).trace, Program(w, name, future).trace);
  }

  /** The visit behind one event in front of the end of the script. */
  lemma EventVisit(w: World, name: string, future: seq<Tick>, i: nat) returns (v: Visit)
    requires i < |EndOf(w, name, future).trace| && IsInner(Program(w, name, future).trace[i])
    ensures i < |Program(w, name, future).trace| && v in VisitsOf(w, name, future)
    ensures ShownAt(w, v, Program(w, name, future).trace, i) && InOrder(w, future, v.state)
  {
    ProgramVisits(w, name, future);
    var t, u := EndOf(w, name, future).trace, Program(w, name, future).trace;
    assert t[i] == u[i] && t[..i + 1] == u[..i + 1];
    assert FromVisit(w, VisitsOf(w, name, future), t, i);
    v :| v in VisitsOf(w, name, future) && ShownAt(w, v, t, i);
  }
}
