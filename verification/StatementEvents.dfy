/** What executing one statement may show, and the interpreter unfolded by one call. */
module StatementEvents {
  import opened Checksum
  import opened Variables
  import opened Expansion
  import opened Ports
  import opened PacketSpec
  import opened Trace
  import opened Interpreter

  predicate IsInclude(stmt: string) {
    stmt != "" && stmt[0] == '#'
  }

  /** The event may come up while `stmt` itself is executed. */
  predicate MayShow(stmt: string, e: Event)
    requires stmt != ""
  {
    match e
    case Sent(_, _, _) => stmt[0] == '>'
    case Matched(_, _, _) => stmt[0] == '<'
    case Mismatched(_, _, _) => stmt[0] == '<'
    case TimedOut(_) => stmt[0] == '<'
    case Stored(_, _) => stmt[0] == '$'
    case Accepted(_) => stmt[0] == '@'
    case Started => stmt[0] == '<' || stmt[0] == '>'
    case Unexpected(_, _) => EndsTestCase(stmt)
    case Reported(_, _) => EndsTestCase(stmt)
    case _ => false
  }

  /** The statements that look at the queues, for the test case before them. */
  predicate EndsTestCase(stmt: string)
    requires stmt != ""
  {
    stmt[0] == '@' || stmt[0] == '<' || stmt[0] == '>'
  }

  /** `u` is `t` and then only what executing `stmt` may show. */
  predicate Shows(stmt: string, t: seq<Event>, u: seq<Event>)
    requires stmt != ""
    decreases |u|
  {
    u == t || (u != [] && MayShow(stmt, u[|u| - 1]) && Shows(stmt, t, u[..|u| - 1]))
  }

  lemma ShowsSnoc(stmt: string, t: seq<Event>, u: seq<Event>, e: Event)
    requires stmt != "" && Shows(stmt, t, u) && MayShow(stmt, e)
    ensures Shows(stmt, t, u + [e])
  {
    assert (u + [e])[..|u|] == u;
  }

  lemma {:induction false} ShowsUnexpected(stmt: string, t: seq<Event>, u: seq<Event>, found: seq<Capture>)
    requires stmt != "" && Shows(stmt, t, u) && EndsTestCase(stmt)
    ensures Shows(stmt, t, u + Unexpecteds(found))
  {
    if found == [] {
      assert u + Unexpecteds(found) == u;
    } else {
      var front, last := found[..|found| - 1], found[|found| - 1];
      ShowsUnexpected(stmt, t, u, front);
      UnexpectedsSnoc(u, found);
      ShowsSnoc(stmt, t, u + Unexpecteds(front), Unexpected(last.port, last.data));
    }
  }

  lemma CleanupShows(w: World, stmt: string, s: State)
    requires stmt != "" && EndsTestCase(stmt)
    ensures Shows(stmt, s.trace, Cleanup(w, s).trace)
  {
    ShowsUnexpected(stmt, s.trace, s.trace, Drain(w.cfg, s.dev.net).found);
    var c := CheckQueues(w, s);
    ShowsSnoc(stmt, s.trace, c.trace, Reported(c.id, c.verdict));
  }

  lemma TestCaseShows(w: World, stmt: string, s: State)
    requires stmt != "" && stmt[0] == '@'
    ensures Shows(stmt, s.trace, RunTestCase(w, stmt, s).state.trace)
  {
    CleanupShows(w, stmt, s);
    if TestCaseId(stmt).Some? {
      ShowsSnoc(stmt, s.trace, Cleanup(w, s).trace, Accepted(TestCaseId(stmt).value));
    }
  }

  lemma SendShows(cfg: Config, stmt: string, port: string, body: Body, dev: Dev)
    requires |body.cells| <= MAX_PKT_SIZE && Sound(body) && stmt != "" && stmt[0] == '>'
    ensures var o := PacketSend(cfg, port, body, dev); o.shown.Some? ==> MayShow(stmt, o.shown.value)
  {
  }

  lemma ReceiveShows(cfg: Config, stmt: string, port: string, body: Body, dev: Dev)
    requires stmt != "" && stmt[0] == '<'
    ensures var o := PacketReceive(cfg, port, body, dev); o.shown.Some? ==> MayShow(stmt, o.shown.value)
  {
  }

  lemma ProcessShows(cfg: Config, stmt: string, dev: Dev)
    requires stmt != "" && (stmt[0] == '<' || stmt[0] == '>')
    ensures var o := PacketProcess(cfg, stmt, dev); o.shown.Some? ==> MayShow(stmt, o.shown.value)
  {
    var port := PortOf(stmt);
    if port.Some? {
      var o := Open(cfg, dev.net, port.value);
      var d := dev.(net := o.net);
      var body := BodyOf(stmt);
      if o.ok && body.Some? {
        BodyFits(stmt);
        if stmt[0] == '<' {
          ReceiveShows(cfg, stmt, port.value, body.value, d);
        } else {
          SendShows(cfg, stmt, port.value, body.value, d);
        }
      }
    }
  }

  lemma PacketShows(w: World, stmt: string, s: State)
    requires stmt != "" && (stmt[0] == '<' || stmt[0] == '>')
    ensures Shows(stmt, s.trace, RunPacket(w, stmt, s).state.trace)
  {
    CleanupShows(w, stmt, s);
    ShowsSnoc(stmt, s.trace, Cleanup(w, s).trace, Started);
    var b := Begun(w, s);
    ProcessShows(w.cfg, stmt, b.dev);
    var o := PacketProcess(w.cfg, stmt, b.dev);
    if o.shown.Some? {
      ShowsSnoc(stmt, s.trace, b.trace, o.shown.value);
    }
  }

  lemma AssignmentShows(stmt: string, s: State)
    requires stmt != "" && NoDollar(stmt[1..]) && '\0' !in stmt && stmt[0] == '$'
    ensures Shows(stmt, s.trace, RunAssignment(stmt, s).state.trace)
  {
    if Store(s.vars, stmt[1..]).Some? {
      var a := ParseAssignment(stmt[1..]).value;
      ShowsSnoc(stmt, s.trace, s.trace, Stored(a.name, a.value));
    }
  }

  /** A statement that is no include shows only what belongs to statements of its kind: packets
      are sent for a `>`, read for a `<`, variables set for a `$`, test cases accepted for a
      `@`, and queues looked at only where a test case may end. */
  lemma PlainShows(w: World, stmt: string, s: State, depth: int)
    requires stmt != "" && NoDollar(stmt[1..]) && '\0' !in stmt && !IsInclude(stmt)
    requires 0 <= depth < MAX_SCRIPT_FILE_DEPTH
    ensures Shows(stmt, s.trace, Execute(w, stmt, s, depth).state.trace)
  {
    if stmt[0] == '@' {
      TestCaseShows(w, stmt, s);
    } else if stmt[0] == '<' || stmt[0] == '>' {
      PacketShows(w, stmt, s);
    } else if stmt[0] == '$' {
      AssignmentShows(stmt, s);
    }
  }

  // ---------- The interpreter unfolded ----------

  lemma ProcessIs(w: World, name: string, s: State, depth: int)
    requires -1 <= depth < MAX_SCRIPT_FILE_DEPTH && CanOpen(w, name, depth)
    ensures ProcessFile(w, name, s, depth) ==
            RunStatements(w, w.files[name], SUCCESS, Log(s, Entered(name)), depth + 1)
  {
  }

  lemma StepIs(w: World, raw: string, s: State, depth: int)
    requires raw != "" && '\0' !in raw && 0 <= depth < MAX_SCRIPT_FILE_DEPTH && Expand(raw, s.vars).Some?
    ensures var e := Expand(raw, s.vars).value;
            && e.text != "" && e.text[0] == raw[0] && NoDollar(e.text[1..]) && '\0' !in e.text
            && Step(w, raw, s, depth) ==
               Consider(w, e.text, e.count, Log(s, Expanded(depth, raw, e.text)), depth)
  {
    ExpandIsFinal(raw, s.vars);
  }

  /** What a round of the loop makes of a statement that was executed. */
  function Finish(stmt: string, r: Result): Result {
    Result(r.state.(verdict := if r.ret == SUCCESS then r.state.verdict else Skipped,
                    trace := r.state.trace + [Ran(stmt, r.ret)]), r.ret)
  }

  lemma ConsiderIs(w: World, stmt: string, count: int, s: State, depth: int)
    requires stmt != "" && NoDollar(stmt[1..]) && '\0' !in stmt && 0 <= depth < MAX_SCRIPT_FILE_DEPTH
    requires stmt[0] == '@' || !Halted(s.verdict)
    ensures Consider(w, stmt, count, s, depth) == Finish(stmt, Execute(w, stmt, s, depth))
  {
  }

  lemma RunOne(w: World, raw: string, ret: int, s: State, depth: int)
    requires raw != "" && '\0' !in raw && 0 <= depth < MAX_SCRIPT_FILE_DEPTH
    ensures RunStatements(w, [raw], ret, s, depth) == Step(w, raw, s, depth)
  {
    assert [raw][1..] == [];
  }

  lemma StepRefuses(w: World, raw: string, s: State, depth: int)
    requires raw != "" && '\0' !in raw && 0 <= depth < MAX_SCRIPT_FILE_DEPTH && Expand(raw, s.vars).None?
    ensures Step(w, raw, s, depth) == Result(s.(verdict := Skipped, trace := s.trace + [ExpandFailed(depth, raw)]), -1)
  {
  }
}
