/** A whole test: a packet is sent, something comes back, and the verdict says whether it was
    the packet. */
module LoopbackTest {
  import opened Text
  import opened Checksum
  import opened Variables
  import opened Expansion
  import opened Ports
  import opened PacketSpec
  import opened Trace
  import opened Interpreter
  import opened StatementEvents

  // ---------- Packet statements without variables ----------

  ghost predicate AllStorable(ws: seq<string>) {
    forall i :: 0 <= i < |ws| ==> Storable(ws[i])
  }

  lemma {:induction false} JoinStorable(ws: seq<string>)
    requires AllStorable(ws)
    ensures Storable(Join(ws))
  {
    if |ws| == 1 {
      assert Join(ws) == ws[0];
    } else if ws != [] {
      JoinStorable(ws[1..]);
      assert '$' !in ws[0] + " " && '\0' !in ws[0] + " ";
    }
  }

  lemma {:induction false} EchoStorable(tokens: seq<string>)
    requires AllWords(tokens) && AllStorable(tokens)
    ensures AllStorable(EchoWords(tokens))
  {
    if tokens != [] {
      EchoStorable(tokens[1..]);
    }
  }

  lemma StatementReads(c: char, port: string, tokens: seq<string>)
    requires IsWord(port) && |port| < MAX_ETH_PORT_NAME_LEN && AllWords(tokens)
    requires Storable(port) && AllStorable(tokens) && c != '\0'
    ensures var stmt := Statement(c, port, tokens);
            && stmt != "" && stmt[0] == c && NoDollar(stmt[1..]) && '\0' !in stmt
            && PortOf(stmt) == Some(port)
            && BodyOf(stmt) == CheckBody(Assemble(Parse(OpOf(c), tokens), 0))
  {
    var stmt := Statement(c, port, tokens);
    var ws := [port] + tokens;
    TokensOfJoin(ws, "");
    JoinStorable(ws);
    assert stmt[1..] == Join(ws) + "" == Join(ws);
    BodyOfTokens(stmt, port, tokens);
  }

  lemma NothingToExpand(stmt: string, vars: Vars)
    requires stmt != "" && NoDollar(stmt[1..])
    ensures Expand(stmt, vars) == Some(Rewritten(stmt, 0))
  {
    ExpandIsOnePass(stmt, vars);
    FindNone(stmt[1..]);
    assert stmt == [stmt[0]] + stmt[1..];
  }

  lemma PacketStep(w: World, stmt: string, s: State, depth: int)
    requires stmt != "" && (stmt[0] == '<' || stmt[0] == '>') && NoDollar(stmt[1..]) && '\0' !in stmt
    requires 0 <= depth < MAX_SCRIPT_FILE_DEPTH && !Halted(s.verdict)
    ensures Step(w, stmt, s, depth) == Finish(stmt, RunPacket(w, stmt, Log(s, Expanded(depth, stmt, stmt))))
  {
    NothingToExpand(stmt, s.vars);
    StepIs(w, stmt, s, depth);
    ConsiderIs(w, stmt, 0, Log(s, Expanded(depth, stmt, stmt)), depth);
  }

  // ---------- The two halves of the test ----------

  /** A port that is open is found, and the statement is carried out. */
  lemma OpenPort(w: World, stmt: string, s: State, port: string, body: Body)
    requires stmt != "" && PortOf(stmt) == Some(port) && BodyOf(stmt) == Some(body)
    requires !w.syntaxOnly && s.verdict == Passed && FindPort(s.dev.net.ports, port) < |s.dev.net.ports|
    ensures |body.cells| <= MAX_PKT_SIZE && PacketSpec.Sound(body)
    ensures var o := if stmt[0] == '<' then PacketReceive(w.cfg, port, body, s.dev) else PacketSend(w.cfg, port, body, s.dev);
            RunPacket(w, stmt, s) == Result(After(s, o), o.ret)
  {
    BodyFits(stmt);
    assert s.dev.(net := s.dev.net) == s.dev;
  }

  /** The packet of a statement to send goes out; then the wire is quiet until the next read. */
  lemma SendRuns(w: World, s: State, stmt: string, port: string, body: Body)
    requires stmt != "" && stmt[0] == '>' && PortOf(stmt) == Some(port) && BodyOf(stmt) == Some(body)
    requires !w.syntaxOnly && s.verdict == Passed && FindPort(s.dev.net.ports, port) < |s.dev.net.ports|
    requires 14 <= |body.cells| <= MAX_PKT_SIZE && PacketSpec.Sound(body)
    requires Build(body, s.dev.recv, s.dev.nRecv, s.dev.buffer).ok
    requires s.dev.net.future != [] && s.dev.net.future[0] == Tick(true, [])
    ensures var built := Build(body, s.dev.recv, s.dev.nRecv, s.dev.buffer).buffer;
            RunPacket(w, stmt, s) ==
            Result(Log(s.(dev := s.dev.(net := Net(s.dev.net.ports, s.dev.net.future[1..]), buffer := built)),
                       Sent(port, body, built[..|body.cells|])), SUCCESS)
  {
    OpenPort(w, stmt, s, port, body);
  }

  /** The first frame that comes in during a read is what the statement is compared with. */
  lemma ReceiveRuns(w: World, s: State, stmt: string, port: string, body: Body, data: Packet, more: seq<Frame>)
    requires stmt != "" && stmt[0] == '<' && PortOf(stmt) == Some(port) && BodyOf(stmt) == Some(body)
    requires !w.syntaxOnly && s.verdict == Passed && FindPort(s.dev.net.ports, port) < |s.dev.net.ports|
    requires s.dev.net.ports[FindPort(s.dev.net.ports, port)].queue == [] && w.cfg.capacity > 0
    requires data != [] && w.cfg.accepts(port, data)
    requires s.dev.net.future != [] && s.dev.net.future[0].frames == [Frame(port, data)] + more
    ensures var r := RunPacket(w, stmt, s);
            && r.ret == SUCCESS
            && r.state.verdict == (if Expected(body.cells, data) then Passed else Failed)
            && r.state.trace == s.trace + [if Expected(body.cells, data) then Matched(port, body, data)
                                           else Mismatched(port, body, data)]
  {
    AcceptsExpected(body.cells, data);
    OpenPort(w, stmt, s, port, body);
    FirstArrival(w.cfg, s.dev.net, port, data, more);
  }

  lemma FirstArrival(cfg: Config, net: Net, port: string, data: Packet, more: seq<Frame>)
    requires FindPort(net.ports, port) < |net.ports|
    requires net.ports[FindPort(net.ports, port)].queue == [] && cfg.capacity > 0
    requires data != [] && cfg.accepts(port, data)
    requires net.future != [] && net.future[0].frames == [Frame(port, data)] + more
    ensures ReadPort(cfg, net, FindPort(net.ports, port)).data == Some(data)
  {
    var i := FindPort(net.ports, port);
    var ports := Arrive(cfg, net.ports, Frame(port, data));
    assert ([Frame(port, data)] + more)[1..] == more;
    assert ports[i].queue == [data];
    ArriveAllGrows(cfg, ports, more, i);
  }

  // ---------- The test ----------

  /** The ports `p` and `q` are open, `q` with nothing in its queue, and a test case runs. */
  ghost predicate Wired(w: World, s: State, p: string, q: string) {
    var ports := s.dev.net.ports;
    && !w.syntaxOnly && s.verdict == Passed && w.cfg.capacity > 0
    && FindPort(ports, p) < |ports| && FindPort(ports, q) < |ports|
    && ports[FindPort(ports, q)].queue == []
  }

  ghost predicate IsPortName(name: string) {
    IsWord(name) && |name| < MAX_ETH_PORT_NAME_LEN && Storable(name)
  }

  /** The tokens are those of a packet that can be sent from this state. */
  ghost predicate Sendable(s: State, tokens: seq<string>, sent: Body) {
    && AllWords(tokens) && AllStorable(tokens)
    && CheckBody(Assemble(Parse(Send, tokens), 0)) == Some(sent)
    && 14 <= |sent.cells| <= MAX_PKT_SIZE
    && Build(sent, s.dev.recv, s.dev.nRecv, s.dev.buffer).ok
  }

  function Packed(s: State, sent: Body): (p: Packet)
    requires 14 <= |sent.cells| <= MAX_PKT_SIZE && PacketSpec.Sound(sent)
    ensures |p| == |sent.cells|
  {
    Build(sent, s.dev.recv, s.dev.nRecv, s.dev.buffer).buffer[..|sent.cells|]
  }

  lemma EchoBody(tokens: seq<string>, sent: Body)
    requires AllWords(tokens) && CheckBody(Assemble(Parse(Send, tokens), 0)) == Some(sent)
    ensures Assemble(Parse(Receive, EchoWords(tokens)), 0).Some?
    ensures CheckBody(Assemble(Parse(Receive, EchoWords(tokens)), 0)) == Assemble(Parse(Receive, EchoWords(tokens)), 0)
    ensures Echoes(Assemble(Parse(Receive, EchoWords(tokens)), 0).value, sent)
  {
    var ts := Parse(Send, tokens);
    AssembledNotBad(ts, 0);
    EchoParses(tokens);
    EchoAssembles(ts, 0);
  }

  /** The echo accepts what the bytes given in the statement itself accept. */
  lemma EchoAgrees(sent: Body, echo: Body, data: seq<byte>)
    requires Echoes(echo, sent)
    ensures Accepts(echo.cells, data) <==> Accepts(sent.cells, data)
  {
    if Accepts(echo.cells, data) {
      forall i | 0 <= i < |sent.cells| && i < |data| && sent.cells[i].Exact? ensures data[i] == sent.cells[i].data {
        assert echo.cells[i] == sent.cells[i];
      }
    }
  }

  lemma SentAgrees(s: State, tokens: seq<string>, sent: Body)
    requires Sendable(s, tokens, sent)
    ensures Accepts(sent.cells, Packed(s, sent))
  {
    var ts := Parse(Send, tokens);
    forall t | t in ts ensures !(t.One? && t.cell.Half?) {
      TokensNoHalf(Send, tokens, t);
    }
    FieldsMatchCells(ts, 0);
    BuildCarries(sent, s.dev.recv, s.dev.nRecv, s.dev.buffer);
  }

  lemma SendStep(w: World, s: State, depth: int, p: string, q: string, tokens: seq<string>, sent: Body)
    requires 0 <= depth < MAX_SCRIPT_FILE_DEPTH && Wired(w, s, p, q) && IsPortName(p) && Sendable(s, tokens, sent)
    requires s.dev.net.future != [] && s.dev.net.future[0] == Tick(true, [])
    ensures var send := Statement('>', p, tokens);
            && '\0' !in send
            && var r := Step(w, send, s, depth);
            && r.ret == SUCCESS && Wired(w, r.state, p, q)
            && r.state.dev.net.future == s.dev.net.future[1..]
            && r.state.trace == s.trace + [Expanded(depth, send, send), Sent(p, sent, Packed(s, sent)), Ran(send, SUCCESS)]
  {
    var send := Statement('>', p, tokens);
    StatementReads('>', p, tokens);
    PacketStep(w, send, s, depth);
    SendRuns(w, Log(s, Expanded(depth, send, send)), send, p, sent);
    ThreeEvents(s.trace, Expanded(depth, send, send), Sent(p, sent, Packed(s, sent)), Ran(send, SUCCESS));
  }

  lemma ThreeEvents(t: seq<Event>, a: Event, b: Event, c: Event)
    ensures t + [a] + [b] + [c] == t + [a, b, c]
  {
  }

  lemma EchoStep(w: World, s: State, depth: int, p: string, q: string, tokens: seq<string>, sent: Body,
                 data: Packet, more: seq<Frame>)
    requires 0 <= depth < MAX_SCRIPT_FILE_DEPTH && Wired(w, s, p, q) && IsPortName(q)
    requires AllWords(tokens) && AllStorable(tokens) && CheckBody(Assemble(Parse(Send, tokens), 0)) == Some(sent)
    requires data != [] && w.cfg.accepts(q, data)
    requires s.dev.net.future != [] && s.dev.net.future[0].frames == [Frame(q, data)] + more
    ensures var echo := Statement('<', q, EchoWords(tokens));
            && '\0' !in echo
            && var r := Step(w, echo, s, depth);
            && r.ret == SUCCESS
            && r.state.verdict == if Expected(sent.cells, data) then Passed else Failed
  {
    var echo := Statement('<', q, EchoWords(tokens));
    EchoStorable(tokens);
    StatementReads('<', q, EchoWords(tokens));
    EchoBody(tokens, sent);
    var body := Assemble(Parse(Receive, EchoWords(tokens)), 0).value;
    PacketStep(w, echo, s, depth);
    ReceiveRuns(w, Log(s, Expanded(depth, echo, echo)), echo, q, body, data, more);
    EchoAgrees(sent, body, data);
    AcceptsExpected(body.cells, data);
    AcceptsExpected(sent.cells, data);
  }

  /** A packet is sent on `p`, and then the echo of its statement waits on `q`: whatever comes
      in, the two statements run with success, and the test case is still PASSED when what came
      in agrees with each byte the statement gives and, over 60 bytes, in length. Otherwise it
      is FAILED. */
  lemma EchoDecides(w: World, s: State, depth: int, p: string, q: string, tokens: seq<string>, sent: Body,
                    data: Packet, more: seq<Frame>)
    requires 0 <= depth < MAX_SCRIPT_FILE_DEPTH && Wired(w, s, p, q) && IsPortName(p) && IsPortName(q)
    requires Sendable(s, tokens, sent) && data != [] && w.cfg.accepts(q, data)
    requires |s.dev.net.future| >= 2 && s.dev.net.future[0] == Tick(true, [])
    requires s.dev.net.future[1].frames == [Frame(q, data)] + more
    ensures var send, echo := Statement('>', p, tokens), Statement('<', q, EchoWords(tokens));
            && '\0' !in send && '\0' !in echo
            && var afterSend := Step(w, send, s, depth);
            var r := Step(w, echo, afterSend.state, depth);
            && afterSend.ret == SUCCESS && r.ret == SUCCESS
            && afterSend.state.trace ==
               s.trace + [Expanded(depth, send, send), Sent(p, sent, Packed(s, sent)), Ran(send, SUCCESS)]
            && r.state.verdict == if Expected(sent.cells, data) then Passed else Failed
  {
    SendStep(w, s, depth, p, q, tokens, sent);
    EchoStep(w, Step(w, Statement('>', p, tokens), s, depth).state, depth, p, q, tokens, sent, data, more);
  }

  /** On a wire that returns what is sent, the test passes. */
  lemma LoopbackPasses(w: World, s: State, depth: int, p: string, q: string, tokens: seq<string>, sent: Body, more: seq<Frame>)
    requires 0 <= depth < MAX_SCRIPT_FILE_DEPTH && Wired(w, s, p, q) && IsPortName(p) && IsPortName(q)
    requires Sendable(s, tokens, sent) && w.cfg.accepts(q, Packed(s, sent))
    requires |s.dev.net.future| >= 2 && s.dev.net.future[0] == Tick(true, [])
    requires s.dev.net.future[1].frames == [Frame(q, Packed(s, sent))] + more
    ensures var send, echo := Statement('>', p, tokens), Statement('<', q, EchoWords(tokens));
            && '\0' !in send && '\0' !in echo
            && Step(w, echo, Step(w, send, s, depth).state, depth).state.verdict == Passed
  {
    EchoDecides(w, s, depth, p, q, tokens, sent, Packed(s, sent), more);
    SentAgrees(s, tokens, sent);
    AcceptsExpected(sent.cells, Packed(s, sent));
  }
}
