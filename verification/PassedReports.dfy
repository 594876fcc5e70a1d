/** What the queues hold when a run reports PASSED. */
module PassedReports {
  import opened Ports
  import opened Arrivals
  import opened Trace
  import opened Interpreter
  import opened StatementEvents
  import opened Conservation
  import opened Visits

  /** The i-th event is the report of what was found by looking at the queues in the state `s`. */
  predicate LookedAt(w: World, s: State, t: seq<Event>, i: nat)
    requires i < |t|
  {
    CheckQueues(w, s).trace == t[..i] && t[i] == Reported(s.id, CheckQueues(w, s).verdict)
  }

  lemma {:induction false} UnexpectedsAre(found: seq<Capture>, k: nat)
    requires k < |Unexpecteds(found)|
    ensures Unexpecteds(found)[k].Unexpected?
  {
    if k < |Unexpecteds(found[..|found| - 1])| {
      UnexpectedsAre(found[..|found| - 1], k);
    }
  }

  /** The one report of a cleanup. */
  lemma CleanupReport(w: World, s: State, i: nat)
    requires |s.trace| <= i < |Cleanup(w, s).trace| && Cleanup(w, s).trace[i].Reported?
    ensures LookedAt(w, s, Cleanup(w, s).trace, i)
  {
    var c := CheckQueues(w, s);
    var found := Drain(w.cfg, s.dev.net).found;
    if i < |c.trace| {
      UnexpectedsAre(found, i - |s.trace|);
    }
    assert Cleanup(w, s).trace[..|c.trace|] == c.trace;
  }

  /** Behind the cleanup a statement reports nothing more. */
  lemma BegunTrace(w: World, s: State, i: nat)
    requires |s.trace| <= i < |Begun(w, s).trace| && Begun(w, s).trace[i].Reported?
    ensures i < |Cleanup(w, s).trace| && Cleanup(w, s).trace <= Begun(w, s).trace
  {
    hide Cleanup;
  }

  lemma AfterTrace(b: State, o: Outcome, i: nat)
    requires i < |After(b, o).trace| && After(b, o).trace[i].Reported? && (o.shown.Some? ==> !o.shown.value.Reported?)
    ensures i < |b.trace| && b.trace <= After(b, o).trace && After(b, o).trace[i] == b.trace[i]
  {
  }

  lemma PacketTrace(w: World, stmt: string, s: State, i: nat)
    requires stmt != "" && (stmt[0] == '<' || stmt[0] == '>')
    requires |s.trace| <= i < |RunPacket(w, stmt, s).state.trace| && RunPacket(w, stmt, s).state.trace[i].Reported?
    ensures i < |Cleanup(w, s).trace| && Cleanup(w, s).trace <= RunPacket(w, stmt, s).state.trace
  {
    var b := Begun(w, s);
    NothingReported(w.cfg, stmt, b.dev);
    hide Begun, Cleanup, PacketProcess, After;
    if !w.syntaxOnly {
      AfterTrace(b, PacketProcess(w.cfg, stmt, b.dev), i);
    }
    BegunTrace(w, s, i);
  }

  lemma NothingReported(cfg: Config, stmt: string, dev: Dev)
    requires stmt != "" && (stmt[0] == '<' || stmt[0] == '>')
    ensures var o := PacketProcess(cfg, stmt, dev); o.shown.Some? ==> !o.shown.value.Reported?
  {
    ProcessShows(cfg, stmt, dev);
    hide PacketProcess;
  }

  lemma StatementTrace(w: World, v: Visit, i: nat)
    requires |v.state.trace| <= i < |Made(w, v).state.trace| && Made(w, v).state.trace[i].Reported?
    ensures i < |Cleanup(w, v.state).trace| && Cleanup(w, v.state).trace <= Made(w, v).state.trace
  {
    PlainShows(w, v.stmt, v.state, 0);
    ShownMay(v.stmt, v.state.trace, Made(w, v).state.trace, i);
    hide Cleanup, RunPacket, TestCaseId, RunAssignment;
    if v.stmt[0] == '<' || v.stmt[0] == '>' {
      PacketTrace(w, v.stmt, v.state, i);
    }
  }

  lemma {:induction false} ShownMay(stmt: string, t: seq<Event>, u: seq<Event>, i: nat)
    requires stmt != "" && Shows(stmt, t, u) && |t| <= i < |u|
    ensures MayShow(stmt, u[i])
    decreases |u|
  {
    if i < |u| - 1 {
      ShownMay(stmt, t, u[..|u| - 1], i);
    }
  }

  /** The one report of a statement. */
  lemma StatementReport(w: World, v: Visit, i: nat)
    requires |v.state.trace| <= i < |Made(w, v).state.trace| && Made(w, v).state.trace[i].Reported?
    ensures LookedAt(w, v.state, Made(w, v).state.trace, i)
  {
    hide Cleanup, Made;
    StatementTrace(w, v, i);
    CleanupReport(w, v.state, i);
    assert Made(w, v).state.trace[..i] == Cleanup(w, v.state).trace[..i];
  }

  // ---------- Nothing unread ----------

  /** All that each open port was brought and took in has been read by the run. */
  ghost predicate AllRead(w: World, future: seq<Tick>, s: State) {
    forall k :: 0 <= k < |s.dev.net.ports| ==> PortRead(w, future, s, s.dev.net.ports[k])
  }

  ghost predicate PortRead(w: World, future: seq<Tick>, s: State, p: Port) {
    && |s.dev.net.future| <= p.left <= |future|
    && p.queue == [] && Kept(p.arrived) == TakenOn(p.name, s.trace)
    && Data(p.arrived) == Brought(w, future, s, p)
  }

  lemma PassedMetAll(w: World, future: seq<Tick>, s: State)
    requires InOrder(w, future, s) && CheckQueues(w, s).verdict == Passed
    ensures CheckQueues(w, s).trace == s.trace && AllRead(w, future, s)
  {
    assert s.trace + Unexpecteds([]) == s.trace;
    NothingFound(w.cfg, s.dev.net);
    forall k | 0 <= k < |s.dev.net.ports| ensures PortRead(w, future, s, s.dev.net.ports[k]) {
      var p := s.dev.net.ports[k];
      assert Books(w, future, s, p.name);
      FindDistinct(s.dev.net.ports, k);
      assert Conserved(p) && PortFed(w.cfg, future, |s.dev.net.future|, p);
    }
  }

  /** The state is one in which the run executes a statement, or the one in which the script ends. */
  ghost predicate OfRun(w: World, name: string, future: seq<Tick>, s: State) {
    s == EndOf(w, name, future) || exists v :: v in VisitsOf(w, name, future) && v.state == s
  }

  /** For each PASSED report of a run, in the state of the run in which the queues were looked at for
      it: every open queue is empty, and all that any queue had taken in had been read, compared or
      found, by the statements before the report. */
  lemma PassedReadsAll(w: World, name: string, future: seq<Tick>, i: nat)
    requires i < |Program(w, name, future).trace|
    requires Program(w, name, future).trace[i].Reported? && Program(w, name, future).trace[i].verdict == Passed
    ensures exists s :: OfRun(w, name, future, s) && s.trace == Program(w, name, future).trace[..i] && AllRead(w, future, s)
  {
    var t, end := Program(w, name, future).trace, EndOf(w, name, future);
    ProgramVisits(w, name, future);
    var s := end;
    if i < |end.trace| {
      var v := EventVisit(w, name, future, i);
      var u := Made(w, v).state.trace;
      assert t[..i + 1][i] == t[i] && u[..i + 1] == t[..i + 1];
      StatementReport(w, v, i);
      assert u[..i] == t[..i];
      s := v.state;
    } else {
      CleanupReport(w, end, i);
    }
    assert OfRun(w, name, future, s);
    PassedMetAll(w, future, s);
  }
}
