/** Every run of the interpreter shows a legal history, and its state is what the history
    amounts to. */
module RunInvariant {
  import opened Text
  import opened Checksum
  import opened Variables
  import opened Expansion
  import opened Ports
  import opened PacketSpec
  import opened Trace
  import opened Interpreter
  import opened Coverage

  /** RecvPkt still holds the packet matched last, as far as BytesInRecvPkt goes. */
  predicate Recalls(m: LastMatch, dev: Dev) {
    m.Match? ==>
      && dev.nRecv == Min(|m.cells|, |m.packet|)
      && forall k :: 0 <= k < dev.nRecv ==> dev.recv[k] == m.packet[k]
  }

  predicate DeviceFits(s: State) {
    && (s.verdict == Unknown ==> s.dev.net.ports == [])
    && (s.verdict == Passed ==> Recalls(MatchOf(s.trace), s.dev))
  }

  /** The state is what its history says. */
  predicate Told(s: State) {
    s.verdict == VerdictOf(s.trace) && s.id == IdOf(s.trace) && s.vars == VarsOf(s.trace)
  }

  predicate Core(w: World, s: State) {
    Legal(w.syntaxOnly, s.trace) && Told(s) && DeviceFits(s)
  }

  /** The invariant between statements. */
  predicate Inv(w: World, s: State) {
    Core(w, s) && !EndsReported(s.trace)
  }

  lemma Emit(w: World, s: State, e: Event, s': State)
    requires Core(w, s) && Allowed(w.syntaxOnly, s.trace, e)
    requires s'.trace == s.trace + [e] && s'.verdict == NextVerdict(s.verdict, e)
    requires s'.id == (if e.Accepted? then e.id else s.id) && s'.vars == NextVars(s.vars, e)
    requires s'.verdict == Unknown ==> s'.dev.net.ports == []
    requires s'.verdict == Passed ==> Recalls(NextMatch(MatchOf(s.trace), e), s'.dev)
    ensures Core(w, s')
    ensures EndsReported(s'.trace) == e.Reported?
  {
    Snoc(w.syntaxOnly, s.trace, e);
  }

  /** An event that leaves the device and the packet matched last alone. */
  lemma EmitPlain(w: World, s: State, e: Event, s': State)
    requires Core(w, s) && Allowed(w.syntaxOnly, s.trace, e)
    requires s'.dev == s.dev && s'.trace == s.trace + [e] && s'.id == s.id && s'.vars == NextVars(s.vars, e)
    requires s'.verdict == NextVerdict(s.verdict, e)
    requires !Opens(e) && !e.Matched?
    ensures Core(w, s')
    ensures EndsReported(s'.trace) == e.Reported?
  {
    Emit(w, s, e, s');
  }

  // ---------- The end of a test case ----------

  /** `t` goes on from `s` with packets found in the queues. */
  predicate GoesOn(w: World, s: seq<Event>, t: seq<Event>, none: bool) {
    && Legal(w.syntaxOnly, t) && !EndsReported(t)
    && VerdictOf(t) == (if none then VerdictOf(s) else Failed)
    && IdOf(t) == IdOf(s) && VarsOf(t) == VarsOf(s) && MatchOf(t) == MatchOf(s)
  }

  lemma UnexpectedStep(w: World, s: seq<Event>, t: seq<Event>, none: bool, e: Event)
    requires GoesOn(w, s, t, none) && VerdictOf(s) != Unknown && e.Unexpected?
    ensures GoesOn(w, s, t + [e], false)
  {
    Snoc(w.syntaxOnly, t, e);
  }

  lemma {:induction false} UnexpectedsLegal(w: World, t: seq<Event>, found: seq<Capture>)
    requires Legal(w.syntaxOnly, t) && VerdictOf(t) != Unknown && !EndsReported(t)
    ensures GoesOn(w, t, t + Unexpecteds(found), found == [])
  {
    if found == [] {
      assert t + Unexpecteds(found) == t;
    } else {
      var front, last := found[..|found| - 1], found[|found| - 1];
      UnexpectedsLegal(w, t, front);
      UnexpectedsSnoc(t, found);
      UnexpectedStep(w, t, t + Unexpecteds(front), front == [], Unexpected(last.port, last.data));
    }
  }

  lemma NoPortsNothingFound(w: World, s: State)
    requires s.dev.net.ports == []
    ensures CheckQueues(w, s) == s
  {
    assert s.trace + Unexpecteds([]) == s.trace;
  }

  /** CheckUnexpectedPackets: with a verdict given, what is found fails the test case; without
      one no port is open and nothing happens. */
  lemma CheckQueuesKeeps(w: World, s: State)
    requires Inv(w, s)
    ensures Inv(w, CheckQueues(w, s))
    ensures (CheckQueues(w, s).verdict == Unknown <==> s.verdict == Unknown)
    ensures CheckQueues(w, s).id == s.id && CheckQueues(w, s).vars == s.vars
    ensures |CheckQueues(w, s).dev.net.ports| == |s.dev.net.ports|
  {
    if s.verdict == Unknown {
      NoPortsNothingFound(w, s);
    } else {
      UnexpectedsLegal(w, s.trace, Drain(w.cfg, s.dev.net).found);
    }
  }

  /** CleanupLastTestExecution: one report, of the verdict after the queues were looked at,
      unless there is no verdict yet. */
  lemma CleanupKeeps(w: World, s: State)
    requires Inv(w, s)
    ensures Core(w, Cleanup(w, s))
    ensures EndsReported(Cleanup(w, s).trace) <==> s.verdict != Unknown
    ensures Cleanup(w, s).verdict == Unknown <==> s.verdict == Unknown
    ensures Cleanup(w, s).id == s.id && Cleanup(w, s).vars == s.vars
    ensures |Cleanup(w, s).dev.net.ports| == |s.dev.net.ports|
  {
    CheckQueuesKeeps(w, s);
    var c := CheckQueues(w, s);
    if c.verdict != Unknown {
      EmitPlain(w, c, Reported(c.id, c.verdict), Cleanup(w, s));
    }
  }

  /** A test case is reported as passed only when all open queues are empty. */
  lemma PassedQueuesEmpty(w: World, s: State)
    requires Cleanup(w, s).verdict == Passed
    ensures s.verdict == Passed
    ensures forall k :: 0 <= k < |s.dev.net.ports| ==> s.dev.net.ports[k].queue == []
  {
    NothingFound(w.cfg, s.dev.net);
  }

  // ---------- Statements other than includes ----------

  lemma RunTestCaseKeeps(w: World, statement: string, s: State)
    requires Inv(w, s) && statement != ""
    ensures var r := RunTestCase(w, statement, s);
            && Inv(w, r.state)
            && (r.ret == SUCCESS ==> r.state.trace != [] && Names(statement, r.state.trace[|r.state.trace| - 1]))
  {
    var id := TestCaseId(statement);
    if id.Some? {
      CleanupKeeps(w, s);
      Emit(w, Cleanup(w, s), Accepted(id.value), RunTestCase(w, statement, s).state);
    }
  }

  lemma BegunKeeps(w: World, s: State)
    requires Inv(w, s) && !Halted(s.verdict)
    ensures Inv(w, Begun(w, s)) && Begun(w, s).verdict == Passed
  {
    if s.verdict == Unknown {
      CleanupKeeps(w, s);
      Emit(w, Cleanup(w, s), Started, Begun(w, s));
    }
  }

  lemma RunAssignmentKeeps(w: World, statement: string, s: State)
    requires Inv(w, s) && !Halted(s.verdict)
    requires statement != "" && NoDollar(statement[1..]) && '\0' !in statement
    ensures var r := RunAssignment(statement, s);
            && Inv(w, r.state)
            && (r.ret == SUCCESS ==> r.state.trace != [] && Stores(statement, r.state.trace[|r.state.trace| - 1]))
  {
    var stored := Store(s.vars, statement[1..]);
    if stored.Some? {
      AssignmentClean(statement[1..]);
      var a := ParseAssignment(statement[1..]).value;
      EmitPlain(w, s, Stored(a.name, a.value), RunAssignment(statement, s).state);
    }
  }

  // ---------- Packets ----------

  /** What a packet statement may show when the verdict is PASSED, and how it leaves the
      device for the next one. */
  predicate OutcomeFits(syntaxOnly: bool, t: seq<Event>, statement: string, o: Outcome)
    requires statement != ""
  {
    && (o.ret == SUCCESS ==> o.shown.Some?)
    && (o.fails <==> o.shown.Some? && (o.shown.value.Mismatched? || o.shown.value.TimedOut?))
    && (o.shown.Some? ==> Executes(statement, o.shown.value) && Allowed(syntaxOnly, t, o.shown.value))
    && (!o.fails ==> Recalls(if o.shown.Some? then NextMatch(MatchOf(t), o.shown.value) else MatchOf(t), o.dev))
  }

  predicate Passing(syntaxOnly: bool, t: seq<Event>) {
    VerdictOf(t) == Passed && !EndsReported(t) && !syntaxOnly
  }

  lemma SentWellBuilt(m: LastMatch, body: Body, dev: Dev)
    requires |body.cells| <= MAX_PKT_SIZE && Sound(body) && Matching(body, 0) && Recalls(m, dev)
    requires Build(body, dev.recv, dev.nRecv, dev.buffer).ok && |body.cells| >= 14
    ensures WellBuilt(m, body, Build(body, dev.recv, dev.nRecv, dev.buffer).buffer[..|body.cells|])
  {
    BuildCarries(body, dev.recv, dev.nRecv, dev.buffer);
  }

  lemma SendFits(syntaxOnly: bool, t: seq<Event>, cfg: Config, statement: string, port: string, body: Body, dev: Dev)
    requires Passing(syntaxOnly, t) && Recalls(MatchOf(t), dev)
    requires statement != "" && statement[0] == '>' && PortOf(statement) == Some(port) && BodyOf(statement) == Some(body)
    requires |body.cells| <= MAX_PKT_SIZE && Sound(body) && Matching(body, 0)
    ensures OutcomeFits(syntaxOnly, t, statement, PacketSend(cfg, port, body, dev))
  {
    if Build(body, dev.recv, dev.nRecv, dev.buffer).ok && |body.cells| >= 14 {
      SentWellBuilt(MatchOf(t), body, dev);
    }
  }

  lemma ReceivedRecalls(body: Body, dev: Dev, net: Net, data: Packet)
    requires Accepts(body.cells, data)
    ensures Recalls(Match(body.cells, data), Received(body.cells, dev, net, data))
  {
  }

  /** A timeout fails the test case, and whatever packet was recalled no longer matters. */
  lemma TimeoutFits(syntaxOnly: bool, t: seq<Event>, statement: string, port: string, dev: Dev)
    requires Passing(syntaxOnly, t)
    requires statement != "" && statement[0] == '<' && PortOf(statement) == Some(port)
    ensures OutcomeFits(syntaxOnly, t, statement, Outcome(dev, SUCCESS, true, Some(TimedOut(port))))
  {
  }

  lemma JudgedFits(syntaxOnly: bool, t: seq<Event>, statement: string, port: string, body: Body, dev: Dev, net: Net, data: Packet)
    requires Passing(syntaxOnly, t)
    requires statement != "" && statement[0] == '<' && PortOf(statement) == Some(port) && BodyOf(statement) == Some(body)
    ensures OutcomeFits(syntaxOnly, t, statement, Judged(port, body, dev, net, data))
  {
    if Accepts(body.cells, data) {
      ReceivedRecalls(body, dev, net, data);
    }
  }

  lemma ReceiveFits(syntaxOnly: bool, t: seq<Event>, cfg: Config, statement: string, port: string, body: Body, dev: Dev)
    requires Passing(syntaxOnly, t)
    requires statement != "" && statement[0] == '<' && PortOf(statement) == Some(port) && BodyOf(statement) == Some(body)
    ensures OutcomeFits(syntaxOnly, t, statement, PacketReceive(cfg, port, body, dev))
  {
    var o := PacketReceive(cfg, port, body, dev);
    var i := FindPort(dev.net.ports, port);
    if i < |dev.net.ports| && ReadPort(cfg, dev.net, i).data.Some? {
      var r := ReadPort(cfg, dev.net, i);
      JudgedFits(syntaxOnly, t, statement, port, body, dev, r.net, r.data.value);
    } else {
      TimeoutFits(syntaxOnly, t, statement, port, o.dev);
    }
  }

  lemma ProcessFits(syntaxOnly: bool, t: seq<Event>, cfg: Config, statement: string, dev: Dev)
    requires Passing(syntaxOnly, t) && Recalls(MatchOf(t), dev)
    requires statement != "" && (statement[0] == '<' || statement[0] == '>')
    ensures OutcomeFits(syntaxOnly, t, statement, PacketProcess(cfg, statement, dev))
  {
    var port := PortOf(statement);
    if port.Some? {
      var o := Open(cfg, dev.net, port.value);
      var d := dev.(net := o.net);
      var body := BodyOf(statement);
      if o.ok && body.Some? {
        BodyFits(statement);
        BodyMatching(statement);
        if statement[0] == '<' {
          ReceiveFits(syntaxOnly, t, cfg, statement, port.value, body.value, d);
        } else {
          SendFits(syntaxOnly, t, cfg, statement, port.value, body.value, d);
        }
      }
    }
  }

  lemma ShowKeeps(w: World, b: State, statement: string, o: Outcome, s': State)
    requires Inv(w, b) && b.verdict == Passed && statement != ""
    requires OutcomeFits(w.syntaxOnly, b.trace, statement, o)
    requires s' == After(b, o)
    ensures Inv(w, s')
    ensures o.ret == SUCCESS ==> s'.trace != [] && Executes(statement, s'.trace[|s'.trace| - 1])
  {
    if o.shown.Some? {
      Emit(w, b, o.shown.value, s');
    }
  }

  lemma RunPacketKeeps(w: World, statement: string, s: State)
    requires Inv(w, s) && !Halted(s.verdict)
    requires statement != "" && (statement[0] == '<' || statement[0] == '>')
    ensures var r := RunPacket(w, statement, s);
            && Inv(w, r.state)
            && (r.ret == SUCCESS && !w.syntaxOnly ==>
                  r.state.trace != [] && Executes(statement, r.state.trace[|r.state.trace| - 1]))
  {
    BegunKeeps(w, s);
    var b := Begun(w, s);
    if !w.syntaxOnly {
      ProcessFits(w.syntaxOnly, b.trace, w.cfg, statement, b.dev);
      ShowKeeps(w, b, statement, PacketProcess(w.cfg, statement, b.dev), RunPacket(w, statement, s).state);
    }
  }

  // ---------- The loop ----------

  lemma {:induction false} ExecuteKeeps(w: World, statement: string, s: State, depth: int)
    requires Inv(w, s) && (Halted(s.verdict) ==> statement != "" && statement[0] == '@')
    requires statement != "" && NoDollar(statement[1..]) && '\0' !in statement
    requires 0 <= depth < MAX_SCRIPT_FILE_DEPTH
    ensures var r := Execute(w, statement, s, depth);
            Inv(w, r.state) && (r.ret == SUCCESS ==> RanWell(w.syntaxOnly, r.state.trace, statement))
    decreases MAX_SCRIPT_FILE_DEPTH - depth, 1, 0
  {
    if statement[0] == '#' {
      var name := IncludeName(statement);
      if name.Some? {
        ProcessFileKeeps(w, name.value, s, depth);
      }
    } else if statement[0] == '@' {
      RunTestCaseKeeps(w, statement, s);
    } else if statement[0] == '<' || statement[0] == '>' {
      RunPacketKeeps(w, statement, s);
    } else if statement[0] == '$' {
      RunAssignmentKeeps(w, statement, s);
    }
  }

  lemma {:induction false} ConsiderKeeps(w: World, statement: string, count: int, s: State, depth: int)
    requires Inv(w, s)
    requires statement != "" && NoDollar(statement[1..]) && '\0' !in statement
    requires 0 <= depth < MAX_SCRIPT_FILE_DEPTH
    ensures Inv(w, Consider(w, statement, count, s, depth).state)
    decreases MAX_SCRIPT_FILE_DEPTH - depth, 2, 0
  {
    if statement[0] != '@' && Halted(s.verdict) {
      EmitPlain(w, s, SkippedOver(statement), Consider(w, statement, count, s, depth).state);
    } else {
      ExecuteKeeps(w, statement, s, depth);
      var r := Execute(w, statement, s, depth);
      EmitPlain(w, r.state, Ran(statement, r.ret), Consider(w, statement, count, s, depth).state);
    }
  }

  lemma {:induction false} StepKeeps(w: World, raw: string, s: State, depth: int)
    requires Inv(w, s)
    requires raw != "" && '\0' !in raw
    requires 0 <= depth < MAX_SCRIPT_FILE_DEPTH
    ensures Inv(w, Step(w, raw, s, depth).state)
    decreases MAX_SCRIPT_FILE_DEPTH - depth, 3, 0
  {
    var e := Expand(raw, s.vars);
    if e.None? {
      EmitPlain(w, s, ExpandFailed(depth, raw), Step(w, raw, s, depth).state);
    } else {
      ExpandIsFinal(raw, s.vars);
      var s' := Log(s, Expanded(depth, raw, e.value.text));
      EmitPlain(w, s, Expanded(depth, raw, e.value.text), s');
      ConsiderKeeps(w, e.value.text, e.value.count, s', depth);
    }
  }

  lemma {:induction false} RunStatementsKeeps(w: World, ss: seq<string>, ret: int, s: State, depth: int)
    requires Inv(w, s) && Readable(ss)
    requires 0 <= depth < MAX_SCRIPT_FILE_DEPTH
    ensures Inv(w, RunStatements(w, ss, ret, s, depth).state)
    decreases MAX_SCRIPT_FILE_DEPTH - depth, 4, |ss|
  {
    if ss != [] {
      StepKeeps(w, ss[0], s, depth);
      var r := Step(w, ss[0], s, depth);
      RunStatementsKeeps(w, ss[1..], r.ret, r.state, depth);
    }
  }

  lemma {:induction false} ProcessFileKeeps(w: World, name: string, s: State, depth: int)
    requires Inv(w, s) && !Halted(s.verdict)
    requires -1 <= depth < MAX_SCRIPT_FILE_DEPTH
    ensures Inv(w, ProcessFile(w, name, s, depth).state)
    decreases MAX_SCRIPT_FILE_DEPTH - depth, 0, 0
  {
    if !CanOpen(w, name, depth) {
      EmitPlain(w, s, OpenFailed(name), ProcessFile(w, name, s, depth).state);
    } else {
      var s' := Log(s, Entered(name));
      EmitPlain(w, s, Entered(name), s');
      RunStatementsKeeps(w, w.files[name], SUCCESS, s', depth + 1);
    }
  }

  // ---------- Whole runs ----------

  lemma InitialInv(w: World, future: seq<Tick>)
    ensures Inv(w, Initial(future))
  {
  }

  /** Every run, on any files, with any traffic and any answers from outside, shows a legal
      history; its verdict, test case and variables are those of the history; and when it ends
      nothing is left to report. */
  lemma ProgramLegal(w: World, name: string, future: seq<Tick>)
    ensures var t := Program(w, name, future).trace;
            && Legal(w.syntaxOnly, t)
            && Program(w, name, future).verdict == VerdictOf(t)
            && Program(w, name, future).vars == VarsOf(t)
            && Due(t) == []
  {
    InitialInv(w, future);
    ProcessFileKeeps(w, name, Initial(future), -1);
    CleanupKeeps(w, ProcessFile(w, name, Initial(future), -1).state);
  }

  /** The reports of a whole run: one for each accepted test case, in order, after one with an
      empty name exactly when something gave a verdict before the first of them. */
  lemma ProgramReports(w: World, name: string, future: seq<Tick>)
    ensures var t := Program(w, name, future).trace;
            ReportedIds(t) == Head(t) + AcceptedIds(t)
  {
    ProgramLegal(w, name, future);
    var t := Program(w, name, future).trace;
    ReportsFollow(w.syntaxOnly, t);
    assert ReportedIds(t) + [] == ReportedIds(t);
  }

  /** Soundness of PASSED over whole runs: between the beginning of a test case that is reported
      as passed and its report, nothing spoke against it, whatever statement ran did what it
      says, each include ran its file, and each packet read is one its statement accepts. */
  lemma ProgramPassed(w: World, name: string, future: seq<Tick>, i: nat)
    requires i < |Program(w, name, future).trace|
    requires Program(w, name, future).trace[i].Reported? && Program(w, name, future).trace[i].verdict == Passed
    ensures var t := Program(w, name, future).trace;
            var j := Begin(t[..i]);
            && 0 <= j < i && Opens(t[j])
            && t[i].id == (if t[j].Accepted? then t[j].id else "")
            && (forall k :: j < k < i ==> Good(t[k]))
            && (forall k: nat :: j < k < i && t[k].Ran? ==> RanWell(w.syntaxOnly, t[..k], t[k].stmt))
            && (forall k: nat :: j < k < i && t[k].Matched? ==> Accepts(t[k].body.cells, t[k].packet))
            && (forall k: nat :: j < k < i && IncludesWell(t[k]) ==> RanFile(w, t[..k], t[k].stmt))
  {
    ProgramLegal(w, name, future);
    var t := Program(w, name, future).trace;
    PassedIsSound(w.syntaxOnly, t, i);
    var j := Begin(t[..i]);
    forall k: nat | j < k < i
      ensures t[k].Ran? ==> RanWell(w.syntaxOnly, t[..k], t[k].stmt)
      ensures t[k].Matched? ==> Accepts(t[k].body.cells, t[k].packet)
      ensures IncludesWell(t[k]) ==> RanFile(w, t[..k], t[k].stmt)
    {
      assert Good(t[k]);
      EventsHold(w.syntaxOnly, t, k);
      if IncludesWell(t[k]) {
        ProgramFiles(w, name, future, k);
      }
    }
  }

  /** Each `?k` of a packet sent when there is a last match is byte k of the packet matched. */
  lemma CopiesMatched(w: World, name: string, future: seq<Tick>, i: nat, j: nat)
    requires i < |Program(w, name, future).trace|
    requires var e := Program(w, name, future).trace[i];
             e.Sent? && j < |e.packet| && |e.packet| == |e.body.cells| && e.body.cells[j].Copy?
    requires MatchOf(Program(w, name, future).trace[..i]).Match?
    ensures var e := Program(w, name, future).trace[i];
            var m := MatchOf(Program(w, name, future).trace[..i]);
            var k := e.body.cells[j].k;
            && k < |m.cells| && k < |m.packet| && e.packet[j] == m.packet[k]
            && Accepts(m.cells, m.packet)
  {
    ProgramLegal(w, name, future);
    var t := Program(w, name, future).trace;
    EventsHold(w.syntaxOnly, t, i);
    var e := t[i];
    assert WellPlaced(MatchOf(t[..i]), e.body.cells[j], e.packet[j]);
    LegalPrefix(w.syntaxOnly, t, i);
    MatchAccepted(w.syntaxOnly, t[..i]);
  }

  /** Where a copied byte comes from: once a `<` has run in a test case, and until the next one
      begins, each `?k` of every packet that is sent is byte k of the packet matched last,
      within the length that packet and its statement have in common; that packet was matched in
      the same test case. */
  lemma ProgramCopies(w: World, name: string, future: seq<Tick>, i: nat, j: nat, r: nat)
    requires i < |Program(w, name, future).trace|
    requires var e := Program(w, name, future).trace[i];
             e.Sent? && j < |e.packet| && |e.packet| == |e.body.cells| && e.body.cells[j].Copy?
    requires var t := Program(w, name, future).trace;
             Begin(t[..i]) < r < i && t[r].Ran? && t[r].stmt != "" && t[r].stmt[0] == '<'
    ensures var t := Program(w, name, future).trace;
            var m := MatchOf(t[..i]);
            var k := t[i].body.cells[j].k;
            && m.Match? && k < |m.cells| && k < |m.packet| && t[i].packet[j] == m.packet[k]
            && Accepts(m.cells, m.packet)
            && exists q: nat :: Begin(t[..i]) < q < i && t[q].Matched? && t[q].packet == m.packet
  {
    ProgramLegal(w, name, future);
    var t := Program(w, name, future).trace;
    LegalPrefix(w.syntaxOnly, t, i);
    assert t[..i][r] == t[r];
    var q := ReceivedMatches(w.syntaxOnly, t[..i], r);
    assert t[..i][q] == t[q];
    CopiesMatched(w, name, future, i, j);
  }

  /** In a passing test case a `<` that has run has left a last match behind. */
  lemma ReceivedMatches(syntaxOnly: bool, t: seq<Event>, r: nat) returns (q: nat)
    requires Legal(syntaxOnly, t) && VerdictOf(t) == Passed && !EndsReported(t) && !syntaxOnly
    requires Begin(t) < r < |t| && t[r].Ran? && t[r].stmt != "" && t[r].stmt[0] == '<'
    ensures MatchOf(t).Match?
    ensures Begin(t) < q < |t| && t[q].Matched? && MatchOf(t) == Match(t[q].body.cells, t[q].packet)
  {
    hide Legal, VerdictOf, MatchOf, PortOf, BodyOf, Accepts, Begin;
    PassedIsGood(syntaxOnly, t);
    assert Good(t[r]);
    EventsHold(syntaxOnly, t, r);
    assert t[..r][r - 1] == t[r - 1];
    assert Executes(t[r].stmt, t[r - 1]);
    assert r - 1 != Begin(t);
    assert Good(t[r - 1]);
    q := LastMatched(t, r - 1);
  }

  /** The last match since the test case began, given that there was one. */
  lemma {:induction false} LastMatched(t: seq<Event>, k: nat) returns (q: nat)
    requires Begin(t) < k < |t| && t[k].Matched?
    ensures Begin(t) < q < |t| && t[q].Matched? && MatchOf(t) == Match(t[q].body.cells, t[q].packet)
    decreases |t|
  {
    if t[|t| - 1].Matched? {
      q := |t| - 1;
    } else {
      q := LastMatched(t[..|t| - 1], k);
    }
  }

  lemma {:induction false} MatchAccepted(syntaxOnly: bool, t: seq<Event>)
    requires Legal(syntaxOnly, t) && MatchOf(t).Match?
    ensures Accepts(MatchOf(t).cells, MatchOf(t).packet)
    decreases |t|
  {
    if !t[|t| - 1].Matched? {
      MatchAccepted(syntaxOnly, t[..|t| - 1]);
    }
  }
}
