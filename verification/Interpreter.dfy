/** The interpreter of test scripts as functions on its state: edpat.c TestScriptProcess,
    testcase.c, the include and open functions of scripts.c, and packet.c PacketProcess. The
    state carries the history of events, which the program shows as packets, reports and
    messages. */
module Interpreter {
  import opened Text
  import opened Checksum
  import opened ScriptReader
  import opened Variables
  import opened Expansion
  import opened Ports
  import opened PacketSpec
  import opened Trace

  const MAX_SCRIPT_FILE_DEPTH := 5

  /** EDPAT_RETVAL; SUCCESS is declared with the events. */
  const FAILED := 0
  const NOTFOUND := -1

  predicate Readable(ss: seq<string>) {
    forall i :: 0 <= i < |ss| ==> ss[i] != "" && '\0' !in ss[i]
  }

  /** The statements of a script file. */
  type Script = ss: seq<string> | Readable(ss) witness []

  /** What stays the same during a run: the files, the flag of `-s`, and the network. */
  datatype World = World(files: map<string, Script>, syntaxOnly: bool, cfg: Config)

  /** The variables of packet.c that outlive a statement, and the ports. */
  datatype Device = Device(net: Net, recv: seq<byte>, nRecv: nat, buffer: seq<byte>) {
    predicate Valid() {
      |recv| == MAX_PKT_SIZE && |buffer| == MAX_PKT_SIZE && nRecv <= MAX_PKT_SIZE
    }
  }

  function Zeros(): (z: seq<byte>)
    ensures |z| == MAX_PKT_SIZE && forall i :: 0 <= i < |z| ==> z[i] == 0
  {
    seq(MAX_PKT_SIZE, _ => 0)
  }

  type Dev = d: Device | d.Valid() witness Device(Net([], []), Zeros(), 0, Zeros())

  datatype State = State(verdict: Verdict, id: string, vars: Vars, dev: Dev, trace: seq<Event>)

  /** The state with one more event in its history. */
  function Log(s: State, e: Event): State {
    s.(trace := s.trace + [e])
  }

  function Initial(future: seq<Tick>): State {
    State(Unknown, "", map[], Device(Net([], future), Zeros(), 0, Zeros()), [])
  }

  // ---------- Packets ----------

  /** What PacketProcess does: the device after it, its return value, whether it sets the
      verdict to FAILED, and the event it shows. */
  datatype Outcome = Outcome(dev: Dev, ret: int, fails: bool, shown: Option<Event>)

  function PacketSend(cfg: Config, port: string, body: Body, dev: Dev): Outcome
    requires |body.cells| <= MAX_PKT_SIZE && Sound(body)
  {
    var built := Build(body, dev.recv, dev.nRecv, dev.buffer);
    var d := dev.(buffer := built.buffer);
    if !built.ok then Outcome(d, FAILED, false, None)
    else if FindPort(d.net.ports, port) == |d.net.ports| || |body.cells| < 14 then Outcome(d, NOTFOUND, false, None)
    else
      var d' := d.(net := Elapse(cfg, d.net));
      if NextOk(d.net) then Outcome(d', SUCCESS, false, Some(Sent(port, body, built.buffer[..|body.cells|])))
      else Outcome(d', FAILED, false, None)
  }

  /** What RecvPkt and BytesInRecvPkt hold after a packet was read; a packet that is accepted
      is cut to the length of the statement. */
  function Received(cells: seq<Cell>, dev: Dev, net: Net, data: Packet): (d: Dev) {
    Device(net, data + dev.recv[|data|..], if Accepts(cells, data) then Min(|cells|, |data|) else |data|, dev.buffer)
  }

  /** What becomes of a packet that was read. */
  function Judged(port: string, body: Body, dev: Dev, net: Net, data: Packet): Outcome {
    var d := Received(body.cells, dev, net, data);
    if Accepts(body.cells, data) then Outcome(d, SUCCESS, false, Some(Matched(port, body, data)))
    else Outcome(d, SUCCESS, true, Some(Mismatched(port, body, data)))
  }

  function PacketReceive(cfg: Config, port: string, body: Body, dev: Dev): Outcome {
    var i := FindPort(dev.net.ports, port);
    if i == |dev.net.ports| then Outcome(dev.(nRecv := MAX_PKT_SIZE), SUCCESS, true, Some(TimedOut(port)))
    else
      var r := ReadPort(cfg, dev.net, i);
      if r.data.None? then Outcome(dev.(net := r.net, nRecv := MAX_PKT_SIZE), SUCCESS, true, Some(TimedOut(port)))
      else Judged(port, body, dev, r.net, r.data.value)
  }

  lemma BodyFits(statement: string)
    requires statement != "" && PortOf(statement).Some? && BodyOf(statement).Some?
    ensures |BodyOf(statement).value.cells| <= MAX_PKT_SIZE && Sound(BodyOf(statement).value)
  {
    BodyWidth(BodyTokens(statement), 0);
  }

  function PacketProcess(cfg: Config, statement: string, dev: Dev): Outcome
    requires statement != ""
  {
    var port := PortOf(statement);
    if port.None? then Outcome(dev, FAILED, false, None)
    else
      var o := Open(cfg, dev.net, port.value);
      var d := dev.(net := o.net);
      if !o.ok then Outcome(d, FAILED, false, None)
      else
        var body := BodyOf(statement);
        if body.None? then Outcome(d, FAILED, false, None)
        else
          BodyFits(statement);
          if statement[0] == '<' then PacketReceive(cfg, port.value, body.value, d)
          else PacketSend(cfg, port.value, body.value, d)
  }

  // ---------- Test cases ----------

  function Unexpecteds(found: seq<Capture>): seq<Event> {
    if found == [] then []
    else Unexpecteds(found[..|found| - 1]) + [Unexpected(found[|found| - 1].port, found[|found| - 1].data)]
  }

  lemma UnexpectedsSnoc(t: seq<Event>, found: seq<Capture>)
    requires found != []
    ensures var front, last := found[..|found| - 1], found[|found| - 1];
            && found == front + [last]
            && t + Unexpecteds(found) == (t + Unexpecteds(front)) + [Unexpected(last.port, last.data)]
  {
  }

  /** CheckUnexpectedPackets. */
  function CheckQueues(w: World, s: State): State {
    var d := Drain(w.cfg, s.dev.net);
    s.(dev := s.dev.(net := d.net),
       verdict := if d.found == [] then s.verdict else Failed,
       trace := s.trace + Unexpecteds(d.found))
  }

  /** CleanupLastTestExecution. */
  function Cleanup(w: World, s: State): State {
    var c := CheckQueues(w, s);
    if c.verdict == Unknown then c else Log(c, Reported(c.id, c.verdict))
  }

  // ---------- Statements ----------

  datatype Result = Result(state: State, ret: int)

  function RunTestCase(w: World, statement: string, s: State): Result
    requires statement != ""
  {
    var id := TestCaseId(statement);
    if id.None? then Result(s, FAILED)
    else
      var c := Cleanup(w, s);
      Result(c.(verdict := Passed, id := id.value, trace := c.trace + [Accepted(id.value)]), SUCCESS)
  }

  /** The first packet outside any test case starts one. */
  function Begun(w: World, s: State): State {
    if s.verdict != Unknown then s
    else
      var c := Cleanup(w, s);
      c.(verdict := Passed, trace := c.trace + [Started])
  }

  /** The state after a packet statement, given what PacketProcess did. */
  function After(b: State, o: Outcome): State {
    b.(dev := o.dev,
       verdict := if o.fails then Failed else b.verdict,
       trace := if o.shown.Some? then b.trace + [o.shown.value] else b.trace)
  }

  function RunPacket(w: World, statement: string, s: State): Result
    requires statement != ""
  {
    var b := Begun(w, s);
    if w.syntaxOnly then Result(b, SUCCESS)
    else
      var o := PacketProcess(w.cfg, statement, b.dev);
      Result(After(b, o), o.ret)
  }

  function RunAssignment(statement: string, s: State): Result
    requires statement != "" && NoDollar(statement[1..]) && '\0' !in statement
  {
    var stored := Store(s.vars, statement[1..]);
    if stored.None? then Result(s, FAILED)
    else
      var a := ParseAssignment(statement[1..]).value;
      Result(s.(vars := stored.value, trace := s.trace + [Stored(a.name, a.value)]), SUCCESS)
  }

  /** A statement other than an include is executed. */
  function RunPlain(w: World, statement: string, s: State): Result
    requires statement != "" && NoDollar(statement[1..]) && '\0' !in statement
  {
    if statement[0] == '@' then RunTestCase(w, statement, s)
    else if statement[0] == '<' || statement[0] == '>' then RunPacket(w, statement, s)
    else if statement[0] == '$' then RunAssignment(statement, s)
    else Result(s, FAILED)
  }

  /** The statement is executed; `depth` is ScriptFileDepth. */
  function Execute(w: World, statement: string, s: State, depth: int): Result
    requires statement != "" && NoDollar(statement[1..]) && '\0' !in statement
    requires 0 <= depth < MAX_SCRIPT_FILE_DEPTH
    decreases MAX_SCRIPT_FILE_DEPTH - depth, 1, 0
  {
    if statement[0] == '#' then
      var name := IncludeName(statement);
      if name.None? then Result(s, FAILED) else ProcessFile(w, name.value, s, depth)
    else RunPlain(w, statement, s)
  }

  /** A statement that was expanded: passed over, or executed and its result looked at. */
  function Consider(w: World, statement: string, count: int, s: State, depth: int): Result
    requires statement != "" && NoDollar(statement[1..]) && '\0' !in statement
    requires 0 <= depth < MAX_SCRIPT_FILE_DEPTH
    decreases MAX_SCRIPT_FILE_DEPTH - depth, 2, 0
  {
    if statement[0] != '@' && Halted(s.verdict) then
      Result(Log(s, SkippedOver(statement)), count)
    else
      var r := Execute(w, statement, s, depth);
      Result(r.state.(verdict := if r.ret == SUCCESS then r.state.verdict else Skipped,
                      trace := r.state.trace + [Ran(statement, r.ret)]), r.ret)
  }

  /** One round of the loop of TestScriptProcess. */
  function Step(w: World, raw: string, s: State, depth: int): Result
    requires raw != "" && '\0' !in raw
    requires 0 <= depth < MAX_SCRIPT_FILE_DEPTH
    decreases MAX_SCRIPT_FILE_DEPTH - depth, 3, 0
  {
    var e := Expand(raw, s.vars);
    if e.None? then
      Result(s.(verdict := Skipped, trace := s.trace + [ExpandFailed(depth, raw)]), -1)
    else
      ExpandIsFinal(raw, s.vars);
      Consider(w, e.value.text, e.value.count, Log(s, Expanded(depth, raw, e.value.text)), depth)
  }

  /** The loop over the statements of one file; `ret` is what the last round left in retVal. */
  function RunStatements(w: World, ss: seq<string>, ret: int, s: State, depth: int): Result
    requires Readable(ss)
    requires 0 <= depth < MAX_SCRIPT_FILE_DEPTH
    decreases MAX_SCRIPT_FILE_DEPTH - depth, 4, |ss|
  {
    if ss == [] then Result(s, ret)
    else
      var r := Step(w, ss[0], s, depth);
      RunStatements(w, ss[1..], r.ret, r.state, depth)
  }

  predicate CanOpen(w: World, name: string, depth: int) {
    depth < MAX_SCRIPT_FILE_DEPTH - 1 && name in w.files
  }

  /** TestScriptProcess: `depth` is ScriptFileDepth before the file is opened. */
  function ProcessFile(w: World, name: string, s: State, depth: int): Result
    requires -1 <= depth < MAX_SCRIPT_FILE_DEPTH
    decreases MAX_SCRIPT_FILE_DEPTH - depth, 0, 0
  {
    if !CanOpen(w, name, depth) then Result(Log(s, OpenFailed(name)), FAILED)
    else RunStatements(w, w.files[name], SUCCESS, Log(s, Entered(name)), depth + 1)
  }

  /** main: the script, and then the report on the last test case. */
  function Program(w: World, name: string, future: seq<Tick>): State {
    Cleanup(w, ProcessFile(w, name, Initial(future), -1).state)
  }

  // ---------- From texts to statements ----------

  lemma StatementsReadable(text: string)
    ensures Readable(Statements(text))
    decreases |text|
  {
    var r := FirstStatement(text);
    ReadNoNul(text, "", true);
    if r.stmt != "" {
      StatementsReadable(r.rest);
    }
  }

  lemma {:induction false} ReadNoNul(text: string, acc: string, wasSpace: bool)
    requires '\0' !in acc
    ensures '\0' !in ReadFrom(text, acc, wasSpace).stmt
    decreases |text|
  {
    if text != "" {
      var n := ChunkLen(text);
      ScanNoNul(text[..n], acc, wasSpace);
      match ScanLine(text[..n], acc, wasSpace)
      case Complete(_) =>
      case Partial(stmt, w) => ReadNoNul(text[n..], stmt, w);
    }
  }

  lemma {:induction false} ScanNoNul(line: string, acc: string, wasSpace: bool)
    requires '\0' !in acc
    ensures '\0' !in ScanLine(line, acc, wasSpace).stmt
    decreases |line|
  {
    if line != "" && line[0] != '\0' {
      var c := if IsControl(line[0]) then ' ' else line[0];
      if c == ';' && acc == "" {
        ScanNoNul(line[1..], acc, wasSpace);
      } else if c == ' ' {
        ScanNoNul(line[1..], Separate(acc, wasSpace), true);
      } else if c != '!' && c != ';' {
        ScanNoNul(line[1..], acc + [c], false);
      }
    }
  }

  function ScriptOf(text: string): Script {
    StatementsReadable(text);
    Statements(text)
  }

  /** The files as the interpreter reads them. */
  function Load(texts: map<string, string>): map<string, Script> {
    map n | n in texts :: ScriptOf(texts[n])
  }
}
