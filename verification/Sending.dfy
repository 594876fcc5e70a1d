/** What the outside answers and what the program makes of it: a packet counts as sent, and a port
    as open, only when the call to the outside has succeeded. */
module Sending {
  import opened Text
  import opened Checksum
  import opened Variables
  import opened Ports
  import opened PacketSpec
  import opened Trace
  import opened Interpreter
  import opened StatementEvents
  import opened Conservation
  import opened LoopbackTest
  import opened RunInvariant
  import opened PassedReports
  import opened Visits

  // ---------- One statement ----------

  /** A statement to send with its port open, in a running test case. */
  predicate ReadyToSend(w: World, s: State, stmt: string, port: string, body: Body) {
    && !w.syntaxOnly && s.verdict == Passed
    && stmt != "" && stmt[0] == '>' && NoDollar(stmt[1..]) && '\0' !in stmt
    && PortOf(stmt) == Some(port) && BodyOf(stmt) == Some(body)
    && FindPort(s.dev.net.ports, port) < |s.dev.net.ports|
  }

  /** The step ends SKIPPED and shows nothing but that the statement failed with this value. */
  predicate EndsSkipped(s: State, depth: int, stmt: string, r: Result, ret: int) {
    && r.ret == ret && r.state.verdict == Skipped
    && r.state.trace == s.trace + [Expanded(depth, stmt, stmt), Ran(stmt, ret)]
  }

  lemma TwoEvents(t: seq<Event>, a: Event, b: Event)
    ensures t + [a] + [b] == t + [a, b]
  {
  }

  /** sendto fails: no packet is shown as sent, the statement returns FAILED, and the test case is
      SKIPPED. */
  lemma SendRefused(w: World, s: State, depth: int, stmt: string, port: string, body: Body)
    requires ReadyToSend(w, s, stmt, port, body) && 0 <= depth < MAX_SCRIPT_FILE_DEPTH
    requires |body.cells| >= 14
    requires s.dev.net.future != [] && !s.dev.net.future[0].ok
    ensures EndsSkipped(s, depth, stmt, Step(w, stmt, s, depth), 0)
  {
    var x := Log(s, Expanded(depth, stmt, stmt));
    PacketStep(w, stmt, s, depth);
    OpenPort(w, stmt, x, port, body);
    TwoEvents(s.trace, Expanded(depth, stmt, stmt), Ran(stmt, 0));
  }

  /** Less than fourteen bytes: the statement fails, and the outside is not even asked. */
  lemma SendTooShort(w: World, s: State, depth: int, stmt: string, port: string, body: Body)
    requires ReadyToSend(w, s, stmt, port, body) && 0 <= depth < MAX_SCRIPT_FILE_DEPTH
    requires |body.cells| <= 13 && Build(body, s.dev.recv, s.dev.nRecv, s.dev.buffer).ok
    ensures EndsSkipped(s, depth, stmt, Step(w, stmt, s, depth), -1)
    ensures Step(w, stmt, s, depth).state.dev.net == s.dev.net
  {
    var x := Log(s, Expanded(depth, stmt, stmt));
    PacketStep(w, stmt, s, depth);
    OpenPort(w, stmt, x, port, body);
    TwoEvents(s.trace, Expanded(depth, stmt, stmt), Ran(stmt, -1));
  }

  /** The packet cannot be built, since a `?k` names a byte that was not received. */
  lemma SendUnbuilt(w: World, s: State, depth: int, stmt: string, port: string, body: Body, j: nat)
    requires ReadyToSend(w, s, stmt, port, body) && 0 <= depth < MAX_SCRIPT_FILE_DEPTH
    requires j < |body.cells| <= MAX_PKT_SIZE && body.cells[j].Copy? && body.cells[j].k >= s.dev.nRecv
    ensures EndsSkipped(s, depth, stmt, Step(w, stmt, s, depth), 0)
  {
    var x := Log(s, Expanded(depth, stmt, stmt));
    PacketStep(w, stmt, s, depth);
    OpenPort(w, stmt, x, port, body);
    FillCellsIs(body.cells, s.dev.recv, s.dev.nRecv, s.dev.buffer, 0);
    TwoEvents(s.trace, Expanded(depth, stmt, stmt), Ran(stmt, 0));
  }

  /** The port cannot be opened: the same, and the table of ports has no new entry. */
  lemma OpenRefused(w: World, s: State, depth: int, stmt: string, port: string)
    requires !w.syntaxOnly && s.verdict == Passed && 0 <= depth < MAX_SCRIPT_FILE_DEPTH
    requires stmt != "" && (stmt[0] == '>' || stmt[0] == '<') && NoDollar(stmt[1..]) && '\0' !in stmt
    requires PortOf(stmt) == Some(port) && FindPort(s.dev.net.ports, port) == |s.dev.net.ports|
    requires s.dev.net.future != [] && !s.dev.net.future[0].ok
    ensures EndsSkipped(s, depth, stmt, Step(w, stmt, s, depth), 0)
    ensures |Step(w, stmt, s, depth).state.dev.net.ports| == |s.dev.net.ports|
  {
    PacketStep(w, stmt, s, depth);
    TwoEvents(s.trace, Expanded(depth, stmt, stmt), Ran(stmt, 0));
  }

  /** The port is opened before the bytes are read: a statement that is refused for its bytes leaves
      its port open. */
  lemma BadBytesOpen(w: World, s: State, depth: int, stmt: string, port: string)
    requires !w.syntaxOnly && s.verdict == Passed && 0 <= depth < MAX_SCRIPT_FILE_DEPTH
    requires stmt != "" && (stmt[0] == '>' || stmt[0] == '<') && NoDollar(stmt[1..]) && '\0' !in stmt
    requires PortOf(stmt) == Some(port) && BodyOf(stmt) == None
    requires FindPort(s.dev.net.ports, port) == |s.dev.net.ports| && s.dev.net.future != [] && s.dev.net.future[0].ok
    ensures EndsSkipped(s, depth, stmt, Step(w, stmt, s, depth), 0)
    ensures var n := Step(w, stmt, s, depth).state.dev.net;
            |n.ports| == |s.dev.net.ports| + 1 && n.ports[|s.dev.net.ports|] == NewPort(port, |s.dev.net.future| - 1)
  {
    PacketStep(w, stmt, s, depth);
    TwoEvents(s.trace, Expanded(depth, stmt, stmt), Ran(stmt, 0));
  }

  /** With `-s` a packet statement succeeds and keeps PASSED, and no port, queue or buffer changes. */
  lemma SyntaxOnly(w: World, s: State, depth: int, stmt: string)
    requires w.syntaxOnly && s.verdict == Passed && 0 <= depth < MAX_SCRIPT_FILE_DEPTH
    requires stmt != "" && (stmt[0] == '>' || stmt[0] == '<') && NoDollar(stmt[1..]) && '\0' !in stmt
    ensures var r := Step(w, stmt, s, depth);
            && r.ret == 1 && r.state.verdict == Passed && r.state.dev == s.dev
            && r.state.trace == s.trace + [Expanded(depth, stmt, stmt), Ran(stmt, 1)]
  {
    PacketStep(w, stmt, s, depth);
    TwoEvents(s.trace, Expanded(depth, stmt, stmt), Ran(stmt, 1));
  }

  /** And the first packet statement of a run begins a test case, also with `-s`. */
  lemma SyntaxOnlyBegins(w: World, s: State, depth: int, stmt: string)
    requires w.syntaxOnly && s.verdict == Unknown && s.dev.net.ports == [] && 0 <= depth < MAX_SCRIPT_FILE_DEPTH
    requires stmt != "" && (stmt[0] == '>' || stmt[0] == '<') && NoDollar(stmt[1..]) && '\0' !in stmt
    ensures var r := Step(w, stmt, s, depth);
            && r.ret == 1 && r.state.verdict == Passed && r.state.dev == s.dev
            && r.state.trace == s.trace + [Expanded(depth, stmt, stmt), Started, Ran(stmt, 1)]
  {
    var x := Log(s, Expanded(depth, stmt, stmt));
    PacketStep(w, stmt, s, depth);
    NoPortsNothingFound(w, x);
    assert s.trace + [Expanded(depth, stmt, stmt)] + [Started] + [Ran(stmt, 1)] ==
           s.trace + [Expanded(depth, stmt, stmt), Started, Ran(stmt, 1)];
  }

  /** After a timeout every `?k` can be filled: BytesInRecvPkt is left at 9000. */
  lemma TimeoutKeepsBuffer(cfg: Config, port: string, body: Body, dev: Dev)
    requires FindPort(dev.net.ports, port) < |dev.net.ports|
    requires ReadPort(cfg, dev.net, FindPort(dev.net.ports, port)).data.None?
    ensures var o := PacketReceive(cfg, port, body, dev);
            && o.ret == 1 && o.fails && o.shown == Some(TimedOut(port))
            && o.dev.nRecv == 9000 && o.dev.recv == dev.recv && o.dev.buffer == dev.buffer
  {
  }

  /** A packet that was refused stays in RecvPkt with its whole length, over what was there. */
  lemma MismatchKeepsPacket(cfg: Config, port: string, body: Body, dev: Dev, data: Packet)
    requires FindPort(dev.net.ports, port) < |dev.net.ports|
    requires ReadPort(cfg, dev.net, FindPort(dev.net.ports, port)).data == Some(data) && !Accepts(body.cells, data)
    ensures var o := PacketReceive(cfg, port, body, dev);
            && o.ret == 1 && o.fails && o.shown == Some(Mismatched(port, body, data))
            && o.dev.nRecv == |data| && o.dev.recv[..|data|] == data && o.dev.recv[|data|..] == dev.recv[|data|..]
  {
  }

  // ---------- Whole runs ----------

  /** The ports as they are when the packet of the statement goes out. */
  function AtSend(w: World, v: Visit): Net
    requires PortOf(v.stmt).Some?
  {
    Open(w.cfg, Begun(w, v.state).dev.net, PortOf(v.stmt).value).net
  }

  /** The statement sends: its port is open and the outside answers that the packet is out. */
  predicate Sends(w: World, v: Visit) {
    && !w.syntaxOnly && v.stmt[0] == '>' && PortOf(v.stmt).Some? && BodyOf(v.stmt).Some?
    && var n := AtSend(w, v);
    && FindPort(n.ports, PortOf(v.stmt).value) < |n.ports|
    && (n.future == [] || n.future[0].ok)
  }

  lemma SendMeans(cfg: Config, stmt: string, dev: Dev)
    requires stmt != "" && stmt[0] == '>' && PacketProcess(cfg, stmt, dev).shown.Some?
    ensures PortOf(stmt).Some? && BodyOf(stmt).Some?
    ensures var n := Open(cfg, dev.net, PortOf(stmt).value).net;
            FindPort(n.ports, PortOf(stmt).value) < |n.ports| && (n.future == [] || n.future[0].ok)
  {
    if PortOf(stmt).Some? && BodyOf(stmt).Some? {
      BodyFits(stmt);
    }
  }

  lemma CleanupSendsNothing(w: World, s: State, i: nat)
    requires |s.trace| <= i < |Cleanup(w, s).trace|
    ensures !Cleanup(w, s).trace[i].Sent?
  {
    CleanupShows(w, "@", s);
    ShownMay("@", s.trace, Cleanup(w, s).trace, i);
  }

  lemma BegunSendsNothing(w: World, s: State, i: nat)
    requires |s.trace| <= i < |Begun(w, s).trace|
    ensures !Begun(w, s).trace[i].Sent?
  {
    if i < |Cleanup(w, s).trace| {
      CleanupSendsNothing(w, s, i);
    }
  }

  /** The packet a statement shows as sent. */
  lemma SentPlace(w: World, v: Visit, i: nat)
    requires |v.state.trace| <= i < |Made(w, v).state.trace| && Made(w, v).state.trace[i].Sent?
    ensures Sends(w, v) && Made(w, v).state.trace[..i] == Begun(w, v.state).trace
  {
    var t, b := Made(w, v).state.trace, Begun(w, v.state);
    PlainShows(w, v.stmt, v.state, 0);
    ShownMay(v.stmt, v.state.trace, t, i);
    hide Begun, PacketProcess;
    var o := PacketProcess(w.cfg, v.stmt, b.dev);
    if i < |b.trace| {
      BegunSendsNothing(w, v.state, i);
    }
    SendMeans(w.cfg, v.stmt, b.dev);
  }

  /** What stands in front of a call to the outside is what is left of the ticks of the run. */
  lemma AtSendLeft(w: World, future: seq<Tick>, v: Visit)
    requires InOrder(w, future, v.state) && PortOf(v.stmt).Some?
    ensures |AtSend(w, v).future| <= |future|
    ensures AtSend(w, v).future == future[|future| - |AtSend(w, v).future|..]
  {
    assert Books(w, future, v.state, "");
    BegunBooks(w, future, v.state, "");
    OpenTaken(w.cfg, future, Begun(w, v.state).dev.net, PortOf(v.stmt).value, "");
  }

  /** The event `t[i]` is the packet of this statement of the run, and the tick that passes as it is
      sent is one that succeeds, or there are no more ticks. */
  predicate SentBy(w: World, future: seq<Tick>, v: Visit, t: seq<Event>, i: nat)
    requires i < |t|
  {
    && Sends(w, v) && t[..i] == Begun(w, v.state).trace
    && var left := |AtSend(w, v).future|;
    && left <= |future|
    && (left == 0 || future[|future| - left].ok)
  }

  /** Every packet that a run shows as sent has left: the outside answered the call of its statement
      with success. So a PASSED test case has really sent all its packets. */
  lemma ProgramSends(w: World, name: string, future: seq<Tick>, i: nat)
    requires i < |Program(w, name, future).trace| && Program(w, name, future).trace[i].Sent?
    ensures exists v :: v in VisitsOf(w, name, future) && SentBy(w, future, v, Program(w, name, future).trace, i)
  {
    hide Begun, Made, AtSend, InOrder, VisitsOf, EndOf;
    var t, end := Program(w, name, future).trace, EndOf(w, name, future);
    ProgramVisits(w, name, future);
    if i >= |end.trace| {
      CleanupSendsNothing(w, end, i);
    }
    var v := EventVisit(w, name, future, i);
    var u := Made(w, v).state.trace;
    assert t[..i + 1][i] == t[i] && u[..i + 1] == t[..i + 1];
    SentPlace(w, v, i);
    assert u[..i] == t[..i];
    AtSendLeft(w, future, v);
    assert SentBy(w, future, v, t, i);
  }
}
