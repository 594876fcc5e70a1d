/** Runs of short scripts on which the program does not do what it is meant to do: a checksum
    that is wrong the second time, a checksum of an odd range, and a verdict that an include
    changes. In all of them every call to the outside succeeds and nothing comes in. */
module Witnesses {
  import opened Text
  import opened Checksum
  import opened Numbers
  import opened Variables
  import opened Expansion
  import opened Ports
  import opened PacketSpec
  import opened Trace
  import opened Interpreter
  import opened StatementEvents
  import opened LoopbackTest
  import opened SpacedNames

  // ---------- Statements ----------

  const SOME_ONES: seq<byte> := seq(12, _ => 1)

  /** `&start-end` and then some bytes. */
  function SumTokens(start: uint32, end: uint32, packet: seq<byte>): seq<string> {
    [['&'] + (Decimal(start) + ['-'] + Decimal(end))] + HexTokens(packet)
  }

  function SumBody(start: uint32, end: uint32, packet: seq<byte>): Body {
    Body([Half, Half] + ExactCells(packet), [Field(0, start, end)])
  }

  lemma DecimalStorable(n: nat)
    ensures Storable(Decimal(n)) && ' ' !in Decimal(n)
  {
    DecimalDigits(n);
  }

  lemma AmpersandReads(range: string, t: Token)
    requires ' ' !in range && Storable(range) && RangeToken(range) == t
    ensures IsWord(['&'] + range) && Storable(['&'] + range) && ReadToken(Send, ['&'] + range) == t
  {
    hide RangeToken, CopyToken, ByteToken;
    assert (['&'] + range)[1..] == range;
  }

  lemma SumWord(start: uint32, end: uint32)
    ensures var t := ['&'] + (Decimal(start) + ['-'] + Decimal(end));
            IsWord(t) && Storable(t) && ReadToken(Send, t) == Sum(start, end)
  {
    DecimalStorable(start);
    DecimalStorable(end);
    RangeTokenNames(start, end);
    hide Decimal, RangeToken, ReadToken;
    AmpersandReads(Decimal(start) + ['-'] + Decimal(end), Sum(start, end));
  }

  lemma {:induction false} HexStorable(packet: seq<byte>)
    ensures AllStorable(HexTokens(packet))
  {
    if packet != [] {
      HexStorable(packet[1..]);
    }
  }

  lemma SumFirst(t: string, rest: seq<string>, start: uint32, end: uint32, more: Body)
    requires IsWord(t) && AllWords(rest) && ReadToken(Send, t) == Sum(start, end)
    requires Assemble(Parse(Send, rest), 2) == Some(more)
    ensures AllWords([t] + rest)
    ensures Assemble(Parse(Send, [t] + rest), 0) == Some(Body([Half, Half] + more.cells, [Field(0, start, end)] + more.fields))
  {
    ParseCons(Send, t, rest);
    AssembleCons(Sum(start, end), Parse(Send, rest), 0);
  }

  lemma SumAssembles(start: uint32, end: uint32, packet: seq<byte>)
    requires |packet| + 2 <= MAX_PKT_SIZE
    ensures AllWords(SumTokens(start, end, packet)) && AllStorable(SumTokens(start, end, packet))
    ensures Assemble(Parse(Send, SumTokens(start, end, packet)), 0) == Some(SumBody(start, end, packet))
  {
    hide Assemble, Parse, ReadToken, HexTokens, Decimal;
    SumWord(start, end);
    HexStorable(packet);
    HexParses(Send, packet);
    ExactAssembles(packet, 2);
    SumFirst(['&'] + (Decimal(start) + ['-'] + Decimal(end)), HexTokens(packet), start, end, Body(ExactCells(packet), []));
    assert [Field(0, start, end)] + [] == [Field(0, start, end)];
  }

  /** A statement that sends a checksum and some bytes behind it is read as that. */
  lemma SumReads(port: string, start: uint32, end: uint32, packet: seq<byte>)
    requires IsPortName(port) && |packet| + 2 <= MAX_PKT_SIZE && Sound(SumBody(start, end, packet))
    ensures var stmt := Statement('>', port, SumTokens(start, end, packet));
            && stmt != "" && stmt[0] == '>' && NoDollar(stmt[1..]) && '\0' !in stmt
            && PortOf(stmt) == Some(port) && BodyOf(stmt) == Some(SumBody(start, end, packet))
  {
    SumAssembles(start, end, packet);
    StatementReads('>', port, SumTokens(start, end, packet));
  }

  lemma SumMatching(start: uint32, end: uint32, packet: seq<byte>)
    ensures Matching(SumBody(start, end, packet), 0)
  {
    MatchingSum(Field(0, start, end), Body(ExactCells(packet), []), 0);
  }

  /** The text ` 01` so many times. */
  function Tail(n: nat): string {
    if n == 0 then "" else " 01" + Tail(n - 1)
  }

  lemma {:induction false} JoinOnes(w: string, n: nat)
    ensures Join([w] + HexTokens(seq(n, _ => 1))) == w + Tail(n)
    decreases n
  {
    var ones: seq<byte> := seq(n, _ => 1);
    if n == 0 {
      assert [w] + HexTokens(ones) == [w];
    } else {
      assert ones[1..] == seq(n - 1, _ => 1) && HexByte(1) == "01";
      JoinOnes("01", n - 1);
      JoinCons(w, ["01"] + HexTokens(ones[1..]), "");
      assert w + " " + ("01" + Tail(n - 1)) == w + (" 01" + Tail(n - 1));
    }
  }

  lemma ThreeOnes(n: nat)
    ensures Tail(n + 3) == " 01 01 01" + Tail(n)
  {
    assert Tail(n + 3) == " 01" + Tail(n + 2) && Tail(n + 2) == " 01" + Tail(n + 1) && Tail(n + 1) == " 01" + Tail(n);
  }

  lemma SixOnes(n: nat)
    ensures Tail(n + 6) == " 01 01 01 01 01 01" + Tail(n)
  {
    ThreeOnes(n);
    ThreeOnes(n + 3);
    hide Tail;
    Six(Tail(n));
  }

  lemma Six(more: string)
    ensures " 01 01 01" + (" 01 01 01" + more) == " 01 01 01 01 01 01" + more
  {
  }

  lemma TwelveOnes()
    ensures Tail(12) == TWELVE
  {
    assert Tail(0) == "";
    SixOnes(0);
    SixOnes(6);
    hide Tail;
    assert " 01 01 01 01 01 01" + "" == " 01 01 01 01 01 01";
  }

  const TWELVE := " 01 01 01 01 01 01" + " 01 01 01 01 01 01"

  /** The checksum of all fourteen bytes. */
  const RESENT := ">" + ("p " + ("&0-13" + TWELVE))

  /** The checksum of the first thirteen bytes. */
  const ODD := ">" + ("p " + ("&0-12" + TWELVE))

  lemma TextOf(sum: string, tokens: seq<string>)
    requires tokens == [sum] + HexTokens(SOME_ONES)
    ensures Statement('>', "p", tokens) == ">" + ("p " + (sum + TWELVE))
  {
    JoinOnes(sum, 12);
    TwelveOnes();
    hide Tail, HexTokens, Join;
    JoinCons("p", tokens, "");
    assert "p" + " " == "p " && Join(["p"] + tokens) + "" == Join(["p"] + tokens);
  }

  lemma Decimals()
    ensures ['&'] + (Decimal(0) + ['-'] + Decimal(13)) == "&0-13"
    ensures ['&'] + (Decimal(0) + ['-'] + Decimal(12)) == "&0-12"
  {
    assert Decimal(0) == "0" && Decimal(13) == "13" && Decimal(12) == "12";
  }

  lemma ResentText()
    ensures RESENT == Statement('>', "p", SumTokens(0, 13, SOME_ONES))
  {
    Decimals();
    TextOf("&0-13", SumTokens(0, 13, SOME_ONES));
  }

  lemma OddText()
    ensures ODD == Statement('>', "p", SumTokens(0, 12, SOME_ONES))
  {
    Decimals();
    TextOf("&0-12", SumTokens(0, 12, SOME_ONES));
  }

  // ---------- Runs in which nothing comes in ----------

  /** The net with one open port, or none, and nothing on the wire. */
  function Quiet(ports: seq<string>): Net
    requires |ports| <= 1
  {
    Net(if ports == [] then [] else [NewPort(ports[0], 0)], [])
  }

  lemma QuietDrains(cfg: Config, ports: seq<string>)
    requires |ports| <= 1
    ensures Drain(cfg, Quiet(ports)) == Drained(Quiet(ports), [])
  {
    if ports != [] {
      assert ReadPort(cfg, Quiet(ports), 0) == Read(Quiet(ports), None);
      assert ReceiveAny(cfg, Quiet(ports), 1) == ReadAny(Quiet(ports), None);
    }
    assert ReceiveAny(cfg, Quiet(ports), 0) == ReadAny(Quiet(ports), None);
  }

  lemma QuietCleanup(w: World, s: State, ports: seq<string>)
    requires |ports| <= 1 && s.dev.net == Quiet(ports)
    ensures Cleanup(w, s) == if s.verdict == Unknown then s else Log(s, Reported(s.id, s.verdict))
  {
    QuietDrains(w.cfg, ports);
    assert s.trace + Unexpecteds([]) == s.trace;
    assert CheckQueues(w, s) == s;
  }

  /** The verdict is given, or nothing has happened yet. */
  predicate Fresh(s: State, port: string) {
    || (s.verdict == Unknown && s.dev.net == Quiet([]))
    || (s.verdict == Passed && s.dev.net == Quiet([port]))
  }

  /** The state in which a packet statement is carried out. */
  function BeganState(s: State): State {
    if s.verdict == Unknown then s.(verdict := Passed, trace := s.trace + [Started]) else s
  }

  lemma QuietBegun(w: World, s: State, port: string)
    requires Fresh(s, port)
    ensures Begun(w, s) == BeganState(s)
  {
    if s.verdict == Unknown {
      QuietCleanup(w, s, []);
    }
  }

  lemma QuietOpen(cfg: Config, s: State, port: string)
    requires Fresh(s, port)
    ensures Open(cfg, s.dev.net, port) == Opening(Quiet([port]), true)
    ensures FindPort(Quiet([port]).ports, port) == 0
  {
    assert [] + [NewPort(port, 0)] == [NewPort(port, 0)];
  }

  lemma QuietSend(w: World, s: State, stmt: string, port: string, body: Body)
    requires !w.syntaxOnly && Fresh(s, port)
    requires stmt != "" && stmt[0] == '>' && PortOf(stmt) == Some(port) && BodyOf(stmt) == Some(body)
    requires 14 <= |body.cells| <= MAX_PKT_SIZE && Sound(body)
    requires Build(body, s.dev.recv, s.dev.nRecv, s.dev.buffer).ok
    ensures var built := Build(body, s.dev.recv, s.dev.nRecv, s.dev.buffer).buffer;
            var b := BeganState(s);
            RunPacket(w, stmt, s) ==
            Result(Log(b.(dev := s.dev.(net := Quiet([port]), buffer := built)), Sent(port, body, built[..|body.cells|])), SUCCESS)
  {
    QuietBegun(w, s, port);
    QuietOpen(w.cfg, s, port);
    BodyFits(stmt);
  }

  lemma QuietTimeout(w: World, s: State, stmt: string, port: string, body: Body)
    requires !w.syntaxOnly && Fresh(s, port)
    requires stmt != "" && stmt[0] == '<' && PortOf(stmt) == Some(port) && BodyOf(stmt) == Some(body)
    ensures var b := BeganState(s);
            RunPacket(w, stmt, s) ==
            Result(Log(b.(verdict := Failed, dev := s.dev.(net := Quiet([port]), nRecv := MAX_PKT_SIZE)), TimedOut(port)), SUCCESS)
  {
    QuietBegun(w, s, port);
    QuietOpen(w.cfg, s, port);
    BodyFits(stmt);
    assert ReadPort(w.cfg, Quiet([port]), 0) == Read(Quiet([port]), None);
  }

  // ---------- A checksum that is right once ----------

  /** What the buffer holds after the statement was sent. */
  function SentBuffer(body: Body, buffer: seq<byte>): (b: seq<byte>)
    requires |body.cells| <= |buffer| == MAX_PKT_SIZE && Sound(body)
    ensures |b| == MAX_PKT_SIZE
  {
    Build(body, Zeros(), 0, buffer).buffer
  }

  /** The state after sending, from a state in which nothing was received. */
  function SentState(s: State, depth: int, stmt: string, body: Body): State
    requires 14 <= |body.cells| <= MAX_PKT_SIZE && Sound(body)
  {
    var built := SentBuffer(body, s.dev.buffer);
    var b := BeganState(Log(s, Expanded(depth, stmt, stmt)));
    Log(Log(b.(dev := s.dev.(net := Quiet(["p"]), buffer := built)), Sent("p", body, built[..|body.cells|])), Ran(stmt, SUCCESS))
  }

  lemma SendOnce(w: World, s: State, depth: int, stmt: string, start: uint32, end: uint32)
    requires !w.syntaxOnly && Fresh(s, "p") && s.dev.recv == Zeros() && s.dev.nRecv == 0
    requires stmt == Statement('>', "p", SumTokens(start, end, SOME_ONES)) && Sound(SumBody(start, end, SOME_ONES))
    requires 0 <= depth < MAX_SCRIPT_FILE_DEPTH
    ensures stmt != "" && '\0' !in stmt
    ensures Step(w, stmt, s, depth) == Result(SentState(s, depth, stmt, SumBody(start, end, SOME_ONES)), SUCCESS)
  {
    hide Build, Statement, SumTokens;
    var body := SumBody(start, end, SOME_ONES);
    SumReads("p", start, end, SOME_ONES);
    SumMatching(start, end, SOME_ONES);
    BuildCarries(body, Zeros(), 0, s.dev.buffer);
    PacketStep(w, stmt, s, depth);
    QuietSend(w, Log(s, Expanded(depth, stmt, stmt)), stmt, "p", body);
  }

  lemma SentTrace(s: State, depth: int, stmt: string, body: Body)
    requires 14 <= |body.cells| <= MAX_PKT_SIZE && Sound(body)
    ensures var packet := SentBuffer(body, s.dev.buffer)[..|body.cells|];
            SentState(s, depth, stmt, body).trace ==
            if s.verdict == Unknown
            then s.trace + [Expanded(depth, stmt, stmt), Started, Sent("p", body, packet), Ran(stmt, SUCCESS)]
            else s.trace + [Expanded(depth, stmt, stmt), Sent("p", body, packet), Ran(stmt, SUCCESS)]
    ensures var r := SentState(s, depth, stmt, body);
            r.id == s.id && r.dev.net == Quiet(["p"]) && r.dev.buffer == SentBuffer(body, s.dev.buffer) && r.verdict == if s.verdict == Unknown then Passed else s.verdict
  {
  }

  /** A whole run, given how the script ends. */
  lemma ProgramIs(w: World, name: string, r: Result, port: string)
    requires name in w.files && r == RunStatements(w, w.files[name], SUCCESS, Log(Initial([]), Entered(name)), 0)
    requires r.state.dev.net == Quiet([port]) && r.state.verdict != Unknown
    ensures Program(w, name, []) == Log(r.state, Reported(r.state.id, r.state.verdict))
  {
    ProcessIs(w, name, Initial([]), -1);
    QuietCleanup(w, r.state, [port]);
  }

  const RESENT_BODY: Body := SumBody(0, 13, SOME_ONES)
  const ODD_BODY: Body := SumBody(0, 12, SOME_ONES)

  lemma ResentIsSample()
    ensures RESENT_BODY == SAMPLE && Sound(RESENT_BODY) && |RESENT_BODY.cells| == 14
  {
    assert ExactCells(SOME_ONES) == ONES;
  }

  /** The statement of the sample is read as the sample. */
  lemma ResentReads()
    ensures PortOf(RESENT) == Some("p") && BodyOf(RESENT) == Some(SAMPLE)
  {
    ResentIsSample();
    ResentText();
    SumReads("p", 0, 13, SOME_ONES);
  }

  /** A file of two statements. */
  lemma RunTwo(w: World, a: string, b: string, s: State, depth: int)
    requires a != "" && '\0' !in a && b != "" && '\0' !in b && 0 <= depth < MAX_SCRIPT_FILE_DEPTH
    ensures Readable([a, b])
    ensures RunStatements(w, [a, b], SUCCESS, s, depth) == Step(w, b, Step(w, a, s, depth).state, depth)
  {
    assert [a, b][1..] == [b] && [b][1..] == [];
    var r := Step(w, a, s, depth);
    var q := Step(w, b, r.state, depth);
    assert RunStatements(w, [b], r.ret, r.state, depth) == RunStatements(w, [], q.ret, q.state, depth);
  }

  lemma ResentStates(w: World, s: State)
    requires !w.syntaxOnly && Fresh(s, "p") && s.dev.recv == Zeros() && s.dev.nRecv == 0
    ensures Sound(SAMPLE) && |SAMPLE.cells| == 14 && Readable([RESENT, RESENT])
    ensures RunStatements(w, [RESENT, RESENT], SUCCESS, s, 0) ==
            Result(SentState(SentState(s, 0, RESENT, SAMPLE), 0, RESENT, SAMPLE), SUCCESS)
  {
    hide Build, SentBuffer, Statement, SumTokens;
    ResentIsSample();
    ResentText();
    SendOnce(w, s, 0, RESENT, 0, 13);
    SendOnce(w, SentState(s, 0, RESENT, SAMPLE), 0, RESENT, 0, 13);
    RunTwo(w, RESENT, RESENT, s, 0);
  }

  lemma ResentChecks()
    ensures Sound(SAMPLE) && |SAMPLE.cells| == 14
    ensures Checks(SentBuffer(SAMPLE, Zeros())[..14], 0, 13)
    ensures !Checks(SentBuffer(SAMPLE, SentBuffer(SAMPLE, Zeros()))[..14], 0, 13)
  {
    ResentIsSample();
    ResendBreaks(Zeros(), 0);
    assert Zeros() == seq(MAX_PKT_SIZE, _ => 0);
  }

  /** The script that sends the statement twice: the run ends with PASSED, the first packet has
      a right checksum, and the second a wrong one. */
  lemma ResentRun(w: World)
    requires !w.syntaxOnly && "s" in w.files && w.files["s"] == [RESENT, RESENT]
    ensures Sound(SAMPLE) && |SAMPLE.cells| == 14
    ensures var one := SentBuffer(SAMPLE, Zeros())[..14];
            var two := SentBuffer(SAMPLE, SentBuffer(SAMPLE, Zeros()))[..14];
            && Program(w, "s", []).trace ==
               [Entered("s"), Expanded(0, RESENT, RESENT), Started, Sent("p", SAMPLE, one), Ran(RESENT, SUCCESS),
                Expanded(0, RESENT, RESENT), Sent("p", SAMPLE, two), Ran(RESENT, SUCCESS), Reported("", Passed)]
            && Checks(one, 0, 13) && !Checks(two, 0, 13)
  {
    hide Program, RunStatements, SentBuffer, SentState, Checks;
    ResentChecks();
    var s := Log(Initial([]), Entered("s"));
    var a := SentState(s, 0, RESENT, SAMPLE);
    ResentStates(w, s);
    SentTrace(s, 0, RESENT, SAMPLE);
    SentTrace(a, 0, RESENT, SAMPLE);
    ProgramIs(w, "s", RunStatements(w, w.files["s"], SUCCESS, s, 0), "p");
  }

  // ---------- A checksum of an odd range ----------

  lemma OddReads()
    ensures PortOf(ODD) == Some("p") && BodyOf(ODD) == Some(ODD_BODY) && Sound(ODD_BODY) && |ODD_BODY.cells| == 14
  {
    OddText();
    SumReads("p", 0, 12, SOME_ONES);
  }

  lemma OddFilled(filled: seq<byte>)
    requires filled == FillCells(ODD_BODY.cells, Zeros(), 0, Zeros(), 0).pkt
    ensures |ODD_BODY.cells| == 14 && FillCells(ODD_BODY.cells, Zeros(), 0, Zeros(), 0).ok
    ensures |filled| == MAX_PKT_SIZE && filled[0] == 0 && filled[1] == 0 && filled[13] == 1
  {
    FillCellsIs(ODD_BODY.cells, Zeros(), 0, Zeros(), 0);
    assert ODD_BODY.cells[13] == Exact(1) && ODD_BODY.cells[0] == Half && ODD_BODY.cells[1] == Half;
    assert forall j :: 2 <= j < 14 ==> ODD_BODY.cells[j] == Exact(1);
  }

  lemma OddInBuffer(f: Field, n: nat, size: nat)
    requires f.pos == f.start && 0 < n && f.end == f.start + 2 * n && f.end + 2 < size
    ensures FieldInBuffer(f, size)
  {
    assert (f.end - f.start) % 2 == 0;
  }

  lemma SurplusLeft(b: seq<byte>, f: Field)
    requires f.pos + 1 < |b| && f.end + 2 < |b| && Word(b[f.pos], b[f.pos + 1]) == 0 && b[f.end + 1] == 1
    ensures 0 < Surplus(b, f) < 0xFFFF
  {
    assert Word(b[f.end + 2], 1) <= 0xFF01;
  }

  lemma NotReady(b: seq<byte>, f: Field, n: nat, i: nat)
    requires OwnOdd(f, n, i) && f.pos + 1 < |b| && f.end + 2 < |b| && 0 < Surplus(b, f) < 0xFFFF
    ensures !OddReady(b, f, n, i)
  {
    hide Surplus;
  }

  lemma OddStoresAt(b: seq<byte>, f: Field, n: nat, i: nat)
    requires FieldInBuffer(f, |b|) && OwnOdd(f, n, i) && f.pos + 1 < |b| && f.end + 2 < |b|
    requires 0 < Surplus(b, f) < 0xFFFF
    ensures !Checks(Checksum.Stored(b, f), f.start, f.end)
  {
    hide Checks, Checksum.Stored, FieldInBuffer, OddReady, Surplus, OwnOdd;
    NotReady(b, f, n, i);
    OddStoredChecks(b, f, n, i);
  }

  lemma SurplusTwelve(b: seq<byte>, f: Field)
    requires |b| > 14 && b[0] == 0 && b[1] == 0 && b[13] == 1
    requires f.pos == 0 && f.end == 12
    ensures 0 < Surplus(b, f) < 0xFFFF
  {
    SurplusLeft(b, f);
  }

  lemma OwnTwelve(f: Field)
    requires f.pos == 0 && f.start == 0 && f.end == 12
    ensures OwnOdd(f, 6, 0)
  {
  }

  lemma OddStoresTwelve(filled: seq<byte>, f: Field)
    requires |filled| > 14 && filled[0] == 0 && filled[1] == 0 && filled[13] == 1
    requires f.pos == 0 && f.start == 0 && f.end == 12
    ensures FieldInBuffer(f, |filled|) && !Checks(Checksum.Stored(filled, f), f.start, f.end)
  {
    hide Checks, Checksum.Stored, FieldInBuffer, Surplus, OwnOdd;
    SurplusTwelve(filled, f);
    OwnTwelve(f);
    OddInBuffer(f, 6, |filled|);
    OddStoresAt(filled, f, 6, 0);
  }

  /** The range of thirteen bytes has the byte 01 behind it, and its checksum is wrong. */
  lemma OddBreaks()
    ensures Sound(ODD_BODY) && |ODD_BODY.cells| == 14
    ensures !Checks(SentBuffer(ODD_BODY, Zeros())[..14], 0, 12)
  {
    hide Checks, FillCells, Fill, Checksum.Stored;
    var filled := FillCells(ODD_BODY.cells, Zeros(), 0, Zeros(), 0).pkt;
    OddFilled(filled);
    FillOnce(filled, Field(0, 0, 12));
    OddStoresTwelve(filled, Field(0, 0, 12));
    OddPrefix(SentBuffer(ODD_BODY, Zeros()));
  }

  lemma OddPrefix(b: seq<byte>)
    requires |b| >= 14
    ensures Checks(b[..14], 0, 12) <==> Checks(b, 0, 12)
  {
    OddRangeSum(b, 0, 12, 6);
    OddRangeSum(b[..14], 0, 12, 6);
    WordSumPrefix(b, 14, 0, 6);
  }

  /** The script that sends it once ends with PASSED. */
  lemma OddRun(w: World)
    requires !w.syntaxOnly && "s" in w.files && w.files["s"] == [ODD]
    ensures Sound(ODD_BODY) && |ODD_BODY.cells| == 14
    ensures var packet := SentBuffer(ODD_BODY, Zeros())[..14];
            && Program(w, "s", []).trace ==
               [Entered("s"), Expanded(0, ODD, ODD), Started, Sent("p", ODD_BODY, packet), Ran(ODD, SUCCESS), Reported("", Passed)]
            && !Checks(packet, 0, 12)
  {
    hide Program, RunStatements, SentBuffer, SentState, Checks, Statement, SumTokens, Step;
    var s := Log(Initial([]), Entered("s"));
    OddReads();
    OddText();
    OddBreaks();
    SendOnce(w, s, 0, ODD, 0, 12);
    RunOne(w, ODD, SUCCESS, s, 0);
    SentTrace(s, 0, ODD, ODD_BODY);
    ProgramIs(w, "s", RunStatements(w, w.files["s"], SUCCESS, s, 0), "p");
  }

  // ---------- A verdict that an include changes ----------

  const AWAITED := "<p 00"
  const INCLUDING := "#f"

  lemma AwaitedReads()
    ensures AWAITED != "" && AWAITED[0] == '<' && NoDollar(AWAITED[1..]) && '\0' !in AWAITED
    ensures PortOf(AWAITED) == Some("p") && BodyOf(AWAITED) == Some(Body(ExactCells([0]), []))
  {
    assert HexByte(0) == "00" && HexTokens([0]) == ["00"];
    JoinCons("p", ["00"], "");
    assert AWAITED == Statement('<', "p", HexTokens([0]));
    HexStatementReads('<', "p", [0]);
  }

  function TimedOutState(s: State, depth: int): State {
    var b := BeganState(Log(s, Expanded(depth, AWAITED, AWAITED)));
    Log(Log(b.(verdict := Failed, dev := s.dev.(net := Quiet(["p"]), nRecv := MAX_PKT_SIZE)), TimedOut("p")), Ran(AWAITED, SUCCESS))
  }

  lemma AwaitOnce(w: World, s: State, depth: int)
    requires !w.syntaxOnly && Fresh(s, "p") && 0 <= depth < MAX_SCRIPT_FILE_DEPTH
    ensures '\0' !in AWAITED && Step(w, AWAITED, s, depth) == Result(TimedOutState(s, depth), SUCCESS)
  {
    AwaitedReads();
    PacketStep(w, AWAITED, s, depth);
    QuietTimeout(w, Log(s, Expanded(depth, AWAITED, AWAITED)), AWAITED, "p", Body(ExactCells([0]), []));
  }

  lemma AwaitSkipped(w: World, s: State, depth: int)
    requires s.verdict == Failed && 0 <= depth < MAX_SCRIPT_FILE_DEPTH
    ensures '\0' !in AWAITED
    ensures Step(w, AWAITED, s, depth) ==
            Result(Log(Log(s, Expanded(depth, AWAITED, AWAITED)), SkippedOver(AWAITED)), 0)
  {
    AwaitedReads();
    NothingToExpand(AWAITED, s.vars);
    StepIs(w, AWAITED, s, depth);
  }

  /** The statements of the file, wherever they run. */
  lemma AwaitTwice(w: World, s: State, depth: int)
    requires !w.syntaxOnly && Fresh(s, "p") && 0 <= depth < MAX_SCRIPT_FILE_DEPTH
    ensures Readable([AWAITED, AWAITED])
    ensures RunStatements(w, [AWAITED, AWAITED], SUCCESS, s, depth) ==
            Result(Log(Log(TimedOutState(s, depth), Expanded(depth, AWAITED, AWAITED)), SkippedOver(AWAITED)), 0)
  {
    AwaitOnce(w, s, depth);
    AwaitSkipped(w, TimedOutState(s, depth), depth);
    RunTwo(w, AWAITED, AWAITED, s, depth);
  }

  lemma IncludingReads(s: State)
    ensures INCLUDING != "" && NoDollar(INCLUDING[1..]) && '\0' !in INCLUDING && IsInclude(INCLUDING)
    ensures IncludeName(INCLUDING) == Some("f") && Expand(INCLUDING, s.vars) == Some(Rewritten(INCLUDING, 0))
  {
    assert INCLUDING[1..] == "f";
    TokensOfTrail("f", "");
    assert "f" + "" == "f";
    NothingToExpand(INCLUDING, s.vars);
  }

  lemma IncludingStep(w: World, s: State)
    requires !w.syntaxOnly && Fresh(s, "p") && "f" in w.files && w.files["f"] == [AWAITED, AWAITED]
    ensures INCLUDING != "" && '\0' !in INCLUDING
    ensures var inside := Log(Log(s, Expanded(0, INCLUDING, INCLUDING)), Entered("f"));
            var r := RunStatements(w, w.files["f"], SUCCESS, inside, 1);
            && r.state.verdict == Failed && r.ret == 0
            && Step(w, INCLUDING, s, 0) == Finish(INCLUDING, r)
  {
    IncludingReads(s);
    StepIs(w, INCLUDING, s, 0);
    var x := Log(s, Expanded(0, INCLUDING, INCLUDING));
    ConsiderIs(w, INCLUDING, 0, x, 0);
    ProcessIs(w, "f", x, 0);
    AwaitTwice(w, Log(x, Entered("f")), 1);
  }

  /** The trace of the two statements. */
  function AwaitTrace(depth: int): seq<Event> {
    [Expanded(depth, AWAITED, AWAITED), Started, TimedOut("p"), Ran(AWAITED, SUCCESS),
     Expanded(depth, AWAITED, AWAITED), SkippedOver(AWAITED)]
  }

  lemma AwaitTraces(w: World, s: State, depth: int)
    requires !w.syntaxOnly && Fresh(s, "p") && s.verdict == Unknown && 0 <= depth < MAX_SCRIPT_FILE_DEPTH
    ensures Readable([AWAITED, AWAITED])
    ensures var r := RunStatements(w, [AWAITED, AWAITED], SUCCESS, s, depth);
            && r.ret == 0 && r.state.trace == s.trace + AwaitTrace(depth)
            && r.state.verdict == Failed && r.state.id == s.id && r.state.dev.net == Quiet(["p"])
  {
    AwaitTwice(w, s, depth);
  }

  /** The script includes a file whose first statement times out: at the end of the file the
      verdict is FAILED, and it is reported as SKIPPED. The same statements in the script itself
      are reported as FAILED. */
  lemma IncludeChangesVerdict(w: World)
    requires !w.syntaxOnly && "s" in w.files && "f" in w.files
    requires w.files["s"] == [INCLUDING] && w.files["f"] == [AWAITED, AWAITED]
    ensures Program(w, "s", []).trace ==
            [Entered("s"), Expanded(0, INCLUDING, INCLUDING), Entered("f")] + AwaitTrace(1)
            + [Ran(INCLUDING, 0), Reported("", Skipped)]
    ensures Program(w, "f", []).trace == [Entered("f")] + AwaitTrace(0) + [Reported("", Failed)]
  {
    IncludedRun(w);
    AwaitRun(w);
  }

  lemma AwaitRun(w: World)
    requires !w.syntaxOnly && "f" in w.files && w.files["f"] == [AWAITED, AWAITED]
    ensures Program(w, "f", []).trace == [Entered("f")] + AwaitTrace(0) + [Reported("", Failed)]
  {
    hide Program, RunStatements, AwaitTrace;
    var f := Log(Initial([]), Entered("f"));
    AwaitTraces(w, f, 0);
    ProgramIs(w, "f", RunStatements(w, w.files["f"], SUCCESS, f, 0), "p");
  }

  lemma IncludedRun(w: World)
    requires !w.syntaxOnly && "s" in w.files && "f" in w.files
    requires w.files["s"] == [INCLUDING] && w.files["f"] == [AWAITED, AWAITED]
    ensures Program(w, "s", []).trace ==
            [Entered("s"), Expanded(0, INCLUDING, INCLUDING), Entered("f")] + AwaitTrace(1)
            + [Ran(INCLUDING, 0), Reported("", Skipped)]
  {
    hide Program, RunStatements, Step, AwaitTrace;
    var s := Log(Initial([]), Entered("s"));
    IncludingStep(w, s);
    RunOne(w, INCLUDING, SUCCESS, s, 0);
    AwaitTraces(w, Log(Log(s, Expanded(0, INCLUDING, INCLUDING)), Entered("f")), 1);
    ProgramIs(w, "s", RunStatements(w, w.files["s"], SUCCESS, s, 0), "p");
  }

  // ---------- A packet that is lost behind a space ----------

  const SETTING := "$P=eth1"

  lemma SettingParts()
    ensures SETTING[1..] == "P" + "=" + "eth1"
  {
  }

  lemma SettingReads()
    ensures SETTING != "" && SETTING[0] == '$' && NoDollar(SETTING[1..]) && '\0' !in SETTING
    ensures ParseAssignment(SETTING[1..]) == Some(Assignment("P", "eth1"))
    ensures Store(map[], SETTING[1..]) == Some(P_IS_ETH1)
  {
    hide Store, ParseAssignment, Trim;
    SettingParts();
    TrimOfTrimmed("P");
    TrimOfTrimmed("eth1");
    AssignmentLayout("P", "P", "eth1", "eth1");
    StoredThenRead(map[], "P", "eth1");
  }

  /** An assignment that is not refused. */
  lemma AssignStep(w: World, stmt: string, s: State, a: Assignment, vars: Vars)
    requires stmt != "" && stmt[0] == '$' && NoDollar(stmt[1..]) && '\0' !in stmt && !Halted(s.verdict)
    requires ParseAssignment(stmt[1..]) == Some(a) && Store(s.vars, stmt[1..]) == Some(vars)
    ensures Step(w, stmt, s, 0) ==
            Finish(stmt, Result(Log(Log(s, Expanded(0, stmt, stmt)).(vars := vars), Event.Stored(a.name, a.value)), SUCCESS))
  {
    hide Store, ParseAssignment, Expand, Step, Consider;
    var x := Log(s, Expanded(0, stmt, stmt));
    NothingToExpand(stmt, s.vars);
    StepIs(w, stmt, s, 0);
    ConsiderIs(w, stmt, 0, x, 0);
  }

  lemma SettingStep(w: World, s: State)
    requires s.vars == map[] && s.verdict == Unknown
    ensures SETTING != "" && '\0' !in SETTING
    ensures Step(w, SETTING, s, 0) ==
            Finish(SETTING, Result(Log(Log(s, Expanded(0, SETTING, SETTING)).(vars := P_IS_ETH1),
                                       Event.Stored("P", "eth1")), SUCCESS))
  {
    SettingReads();
    hide Store, ParseAssignment, Step;
    AssignStep(w, SETTING, s, Assignment("P", "eth1"), P_IS_ETH1);
  }

  const LEFT := ">eth1 "

  lemma LeftReads()
    ensures LEFT != "" && LEFT[0] == '>' && NoDollar(LEFT[1..]) && '\0' !in LEFT
    ensures PortOf(LEFT) == Some("eth1") && BodyOf(LEFT) == None
  {
    assert LEFT[1..] == "eth1" + " ";
    TokensOfTrail("eth1", " ");
    assert Tokens(LEFT[1..])[1..] == [];
  }

  lemma LosingStep(w: World, s: State)
    requires !w.syntaxOnly && Fresh(s, "eth1") && s.verdict == Unknown && s.vars == P_IS_ETH1
    ensures LOSING != "" && '\0' !in LOSING
    ensures var r := Step(w, LOSING, s, 0);
            && r.ret == FAILED && r.state.verdict == Skipped && r.state.id == s.id && r.state.dev.net == Quiet(["eth1"])
            && r.state.trace == s.trace + [Expanded(0, LOSING, LEFT), Started, Ran(LEFT, FAILED)]
  {
    BytesLost();
    LeftReads();
    hide Expand, PortOf, BodyOf;
    StepIs(w, LOSING, s, 0);
    var x := Log(s, Expanded(0, LOSING, LEFT));
    ConsiderIs(w, LEFT, 1, x, 0);
    QuietBegun(w, x, "eth1");
    QuietOpen(w.cfg, x, "eth1");
  }

  /** The script sets P and sends to it with a space behind the `$`: nothing is sent, and the test is
      reported as SKIPPED. */
  lemma LosingRun(w: World)
    requires !w.syntaxOnly && "s" in w.files && w.files["s"] == [SETTING, LOSING]
    ensures Program(w, "s", []).trace ==
            [Entered("s"), Expanded(0, SETTING, SETTING), Event.Stored("P", "eth1"), Ran(SETTING, SUCCESS),
             Expanded(0, LOSING, LEFT), Started, Ran(LEFT, FAILED), Reported("", Skipped)]
  {
    hide Program, RunStatements, Step;
    var s := Log(Initial([]), Entered("s"));
    SettingStep(w, s);
    LosingStep(w, Step(w, SETTING, s, 0).state);
    RunTwo(w, SETTING, LOSING, s, 0);
    ProgramIs(w, "s", RunStatements(w, w.files["s"], SUCCESS, s, 0), "eth1");
  }
}
