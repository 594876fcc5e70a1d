/** No packet is lost between a queue and the test: over every run, what the statements and
    the cleanups have read from a port is, in order, all that its queue took in less what is
    still waiting. */
module Conservation {
  import opened Text
  import opened Checksum
  import opened Variables
  import opened Expansion
  import opened Ports
  import opened Arrivals
  import opened PacketSpec
  import opened Trace
  import opened Interpreter
  import opened StatementEvents

  /** The packets a history has read from a port. */
  function TakenOn(name: string, t: seq<Event>): seq<seq<byte>> {
    if t == [] then [] else TakenOn(name, t[..|t| - 1]) + TakenBy(name, t[|t| - 1])
  }

  function TakenBy(name: string, e: Event): seq<seq<byte>> {
    match e
    case Matched(port, _, packet) => if port == name then [packet] else []
    case Mismatched(port, _, packet) => if port == name then [packet] else []
    case Unexpected(port, packet) => if port == name then [packet] else []
    case _ => []
  }

  lemma TakenSnoc(name: string, t: seq<Event>, e: Event)
    ensures TakenOn(name, t + [e]) == TakenOn(name, t) + TakenBy(name, e)
  {
    assert (t + [e])[..|t|] == t;
  }

  lemma TakenSame(name: string, t: seq<Event>, e: Event)
    requires TakenBy(name, e) == []
    ensures TakenOn(name, t + [e]) == TakenOn(name, t)
  {
    TakenSnoc(name, t, e);
    assert TakenOn(name, t) + [] == TakenOn(name, t);
  }

  /** What has been read from the port of that name, if it is open. */
  function Taken(ports: seq<Port>, name: string): seq<seq<byte>> {
    var i := FindPort(ports, name);
    if i < |ports| then ports[i].taken else []
  }

  /** The books of every port are in order, and each was fed what the ticks of `start` brought. */
  ghost predicate Sound(cfg: Config, start: seq<Tick>, net: Net) {
    AllConserved(net.ports) && DistinctNames(net.ports) && Fed(cfg, start, net)
  }

  // ---------- Reads ----------

  lemma {:induction false} FindSame(a: seq<Port>, b: seq<Port>, name: string)
    requires |a| == |b| && forall k :: 0 <= k < |a| ==> a[k].name == b[k].name
    ensures FindPort(a, name) == FindPort(b, name)
  {
    if a != [] && a[0].name != name {
      FindSame(a[1..], b[1..], name);
    }
  }

  lemma SteadyTaken(a: seq<Port>, b: seq<Port>, name: string)
    requires Steady(a, b)
    ensures Taken(a, name) == Taken(b, name)
    ensures DistinctNames(a) ==> DistinctNames(b)
  {
    FindSame(a, b, name);
  }

  lemma TookTaken(a: seq<Port>, b: seq<Port>, i: nat, data: Packet, name: string)
    requires Took(a, b, i, data) && DistinctNames(a)
    ensures Taken(b, name) == Taken(a, name) + (if name == a[i].name then [data] else [])
    ensures DistinctNames(b)
  {
    FindSame(a, b, name);
    var k := FindPort(a, name);
    if name == a[i].name {
      assert k == i;
    } else {
      assert k != i;
    }
  }

  lemma ReadTaken(cfg: Config, start: seq<Tick>, net: Net, i: nat, name: string)
    requires Sound(cfg, start, net) && i < |net.ports|
    ensures var r := ReadPort(cfg, net, i);
            && Sound(cfg, start, r.net)
            && Taken(r.net.ports, name) ==
               Taken(net.ports, name) + (if r.data.Some? && name == net.ports[i].name then [r.data.value] else [])
  {
    ReadPortConserves(cfg, net, i);
    ReadFed(cfg, start, net, i);
    var r := ReadPort(cfg, net, i);
    if r.data.None? {
      SteadyTaken(net.ports, r.net.ports, name);
    } else {
      TookTaken(net.ports, r.net.ports, i, r.data.value, name);
    }
  }

  function CapturedBy(name: string, c: Capture): seq<seq<byte>> {
    if c.port == name then [c.data] else []
  }

  /** Sound, with `more` read from the port of that name. */
  ghost predicate TakenMore(cfg: Config, start: seq<Tick>, net: Net, net': Net, name: string, more: seq<seq<byte>>) {
    Sound(cfg, start, net') && Taken(net'.ports, name) == Taken(net.ports, name) + more
  }

  lemma SteadyThen(cfg: Config, start: seq<Tick>, net: Net, mid: Net, net': Net, name: string, more: seq<seq<byte>>)
    requires TakenMore(cfg, start, net, mid, name, []) && TakenMore(cfg, start, mid, net', name, more)
    ensures TakenMore(cfg, start, net, net', name, more)
  {
    assert Taken(net.ports, name) + [] == Taken(net.ports, name);
  }

  lemma {:induction false} SweepTaken(cfg: Config, start: seq<Tick>, net: Net, i: nat, name: string)
    requires Sound(cfg, start, net) && i <= |net.ports|
    ensures var r := ReceiveAny(cfg, net, i);
            TakenMore(cfg, start, net, r.net, name, if r.got.Some? then CapturedBy(name, r.got.value) else [])
    decreases |net.ports| - i
  {
    if i < |net.ports| {
      ReadTaken(cfg, start, net, i, name);
      var r := ReadPort(cfg, net, i);
      if r.data.None? {
        SweepTaken(cfg, start, r.net, i + 1, name);
        var q := ReceiveAny(cfg, r.net, i + 1);
        SteadyThen(cfg, start, net, r.net, q.net, name, if q.got.Some? then CapturedBy(name, q.got.value) else []);
      }
    } else {
      assert Taken(net.ports, name) + [] == Taken(net.ports, name);
    }
  }

  function Captured(name: string, found: seq<Capture>): seq<seq<byte>> {
    if found == [] then [] else CapturedBy(name, found[0]) + Captured(name, found[1..])
  }

  lemma {:induction false} DrainTaken(cfg: Config, start: seq<Tick>, net: Net, name: string)
    requires Sound(cfg, start, net)
    ensures Sound(cfg, start, Drain(cfg, net).net)
    ensures Taken(Drain(cfg, net).net.ports, name) == Taken(net.ports, name) + Captured(name, Drain(cfg, net).found)
    decreases Weight(net)
  {
    SweepTaken(cfg, start, net, 0, name);
    var r := ReceiveAny(cfg, net, 0);
    if r.got.Some? {
      ReceiveAnyWeight(cfg, net, 0);
      DrainTaken(cfg, start, r.net, name);
      var rest := Drain(cfg, r.net).found;
      CapturedCons(name, r.got.value, rest);
      Assoc(Taken(net.ports, name), CapturedBy(name, r.got.value), Captured(name, rest));
    }
  }

  lemma CapturedCons(name: string, c: Capture, found: seq<Capture>)
    ensures Captured(name, [c] + found) == CapturedBy(name, c) + Captured(name, found)
  {
    assert ([c] + found)[1..] == found;
  }

  lemma {:induction false} CapturedSnoc(name: string, found: seq<Capture>, c: Capture)
    ensures Captured(name, found + [c]) == Captured(name, found) + CapturedBy(name, c)
  {
    if found == [] {
      assert [] + [c] == [c] + [];
      CapturedCons(name, c, []);
      assert CapturedBy(name, c) + [] == [] + CapturedBy(name, c);
    } else {
      assert found + [c] == [found[0]] + (found[1..] + [c]);
      CapturedCons(name, found[0], found[1..] + [c]);
      CapturedSnoc(name, found[1..], c);
      Assoc(CapturedBy(name, found[0]), Captured(name, found[1..]), CapturedBy(name, c));
    }
  }

  lemma {:induction false} UnexpectedTaken(name: string, t: seq<Event>, found: seq<Capture>)
    ensures TakenOn(name, t + Unexpecteds(found)) == TakenOn(name, t) + Captured(name, found)
  {
    if found == [] {
      assert t + Unexpecteds(found) == t;
      assert TakenOn(name, t) + [] == TakenOn(name, t);
    } else {
      var front, last := found[..|found| - 1], found[|found| - 1];
      UnexpectedsSnoc(t, found);
      UnexpectedTaken(name, t, front);
      CapturedSnoc(name, front, last);
      TakenSnoc(name, t + Unexpecteds(front), Unexpected(last.port, last.data));
      Assoc(TakenOn(name, t), Captured(name, front), CapturedBy(name, last));
    }
  }

  // ---------- Runs ----------

  /** The history and the port table agree on what was read from the port, and its books are
      in order. */
  ghost predicate Books(w: World, start: seq<Tick>, s: State, name: string) {
    && Sound(w.cfg, start, s.dev.net)
    && Taken(s.dev.net.ports, name) == TakenOn(name, s.trace)
  }

  lemma LogBooks(w: World, start: seq<Tick>, s: State, e: Event, name: string)
    requires Books(w, start, s, name) && TakenBy(name, e) == []
    ensures Books(w, start, Log(s, e), name)
  {
    TakenSame(name, s.trace, e);
  }

  lemma CheckBooks(w: World, start: seq<Tick>, s: State, name: string)
    requires Books(w, start, s, name)
    ensures Books(w, start, CheckQueues(w, s), name)
  {
    DrainTaken(w.cfg, start, s.dev.net, name);
    UnexpectedTaken(name, s.trace, Drain(w.cfg, s.dev.net).found);
  }

  lemma CleanupBooks(w: World, start: seq<Tick>, s: State, name: string)
    requires Books(w, start, s, name)
    ensures Books(w, start, Cleanup(w, s), name)
  {
    hide Books, CheckQueues;
    CheckBooks(w, start, s, name);
    var c := CheckQueues(w, s);
    LogBooks(w, start, c, Reported(c.id, c.verdict), name);
  }

  lemma ElapseTaken(cfg: Config, start: seq<Tick>, net: Net, name: string)
    requires Sound(cfg, start, net)
    ensures Sound(cfg, start, Elapse(cfg, net)) && Taken(Elapse(cfg, net).ports, name) == Taken(net.ports, name)
  {
    ElapseConserves(cfg, net);
    ElapseFed(cfg, start, net);
    SteadyTaken(net.ports, Elapse(cfg, net).ports, name);
  }

  lemma {:induction false} FindAppended(ports: seq<Port>, p: Port, name: string)
    ensures FindPort(ports + [p], name) ==
            if FindPort(ports, name) < |ports| then FindPort(ports, name)
            else if p.name == name then |ports| else |ports| + 1
  {
    if ports == [] {
      assert [p][1..] == [];
    } else if ports[0].name != name {
      assert (ports + [p])[1..] == ports[1..] + [p];
      FindAppended(ports[1..], p, name);
    }
  }

  lemma AppendTaken(ports: seq<Port>, p: Port, name: string)
    requires DistinctNames(ports) && FindPort(ports, p.name) == |ports| && p.taken == []
    ensures DistinctNames(ports + [p]) && Taken(ports + [p], name) == Taken(ports, name)
  {
    FindAppended(ports, p, name);
  }

  lemma OpenTaken(cfg: Config, start: seq<Tick>, net: Net, port: string, name: string)
    requires Sound(cfg, start, net)
    ensures Sound(cfg, start, Open(cfg, net, port).net)
    ensures Taken(Open(cfg, net, port).net.ports, name) == Taken(net.ports, name)
  {
    if FindPort(net.ports, port) == |net.ports| {
      var n := Elapse(cfg, net);
      ElapseTaken(cfg, start, net, name);
      ElapseConserves(cfg, net);
      FindSame(net.ports, n.ports, port);
      AppendTaken(n.ports, NewPort(port, |n.future|), name);
      OpenFed(cfg, start, net, port);
    }
  }

  /** What a packet statement shows is what it read. */
  lemma SendTaken(cfg: Config, start: seq<Tick>, port: string, body: Body, dev: Dev, name: string)
    requires Sound(cfg, start, dev.net) && |body.cells| <= MAX_PKT_SIZE && PacketSpec.Sound(body)
    ensures var o := PacketSend(cfg, port, body, dev);
            && Sound(cfg, start, o.dev.net) && Taken(o.dev.net.ports, name) == Taken(dev.net.ports, name)
            && (o.shown.Some? ==> TakenBy(name, o.shown.value) == [])
  {
    hide Sound, Taken, Build, Elapse;
    ElapseTaken(cfg, start, dev.net, name);
  }

  /** A packet statement reads at most one packet, from its own port, and shows it. */
  lemma ReceiveReads(cfg: Config, port: string, body: Body, dev: Dev, name: string)
    ensures var o := PacketReceive(cfg, port, body, dev);
            var i := FindPort(dev.net.ports, port);
            && o.shown.Some?
            && if i == |dev.net.ports| then o.dev.net == dev.net && TakenBy(name, o.shown.value) == []
               else var r := ReadPort(cfg, dev.net, i);
                    && o.dev.net == r.net
                    && TakenBy(name, o.shown.value) == if r.data.Some? && name == port then [r.data.value] else []
  {
  }

  lemma ReceiveTaken(cfg: Config, start: seq<Tick>, port: string, body: Body, dev: Dev, name: string)
    requires Sound(cfg, start, dev.net)
    ensures var o := PacketReceive(cfg, port, body, dev);
            && Sound(cfg, start, o.dev.net)
            && Taken(o.dev.net.ports, name) ==
               Taken(dev.net.ports, name) + (if o.shown.Some? then TakenBy(name, o.shown.value) else [])
  {
    ReceiveReads(cfg, port, body, dev, name);
    var i := FindPort(dev.net.ports, port);
    if i < |dev.net.ports| {
      ReadTaken(cfg, start, dev.net, i, name);
    }
  }

  lemma ProcessTaken(cfg: Config, start: seq<Tick>, statement: string, dev: Dev, name: string)
    requires Sound(cfg, start, dev.net) && statement != ""
    ensures var o := PacketProcess(cfg, statement, dev);
            && Sound(cfg, start, o.dev.net)
            && Taken(o.dev.net.ports, name) ==
               Taken(dev.net.ports, name) + (if o.shown.Some? then TakenBy(name, o.shown.value) else [])
  {
    hide Sound, Taken, TakenBy;
    var port := PortOf(statement);
    if port.Some? {
      OpenTaken(cfg, start, dev.net, port.value, name);
      var o := Open(cfg, dev.net, port.value);
      var d := dev.(net := o.net);
      var body := BodyOf(statement);
      if o.ok && body.Some? {
        BodyFits(statement);
        SendTaken(cfg, start, port.value, body.value, d, name);
        ReceiveTaken(cfg, start, port.value, body.value, d, name);
      }
    }
  }

  lemma BegunBooks(w: World, start: seq<Tick>, s: State, name: string)
    requires Books(w, start, s, name)
    ensures Books(w, start, Begun(w, s), name)
  {
    hide Sound, Taken, TakenOn, Cleanup;
    CleanupBooks(w, start, s, name);
    LogBooks(w, start, Cleanup(w, s), Started, name);
  }

  lemma ShownBooks(w: World, start: seq<Tick>, b: State, o: Outcome, name: string)
    requires Books(w, start, b, name) && Sound(w.cfg, start, o.dev.net)
    requires Taken(o.dev.net.ports, name) ==
             Taken(b.dev.net.ports, name) + (if o.shown.Some? then TakenBy(name, o.shown.value) else [])
    ensures Books(w, start, After(b, o), name)
  {
    if o.shown.Some? {
      TakenSnoc(name, b.trace, o.shown.value);
    }
  }

  lemma PacketBooks(w: World, start: seq<Tick>, statement: string, s: State, name: string)
    requires Books(w, start, s, name) && statement != ""
    ensures Books(w, start, RunPacket(w, statement, s).state, name)
  {
    BegunBooks(w, start, s, name);
    var b := Begun(w, s);
    ProcessTaken(w.cfg, start, statement, b.dev, name);
    if !w.syntaxOnly {
      ShownBooks(w, start, b, PacketProcess(w.cfg, statement, b.dev), name);
    }
  }

  lemma TestCaseBooks(w: World, start: seq<Tick>, statement: string, s: State, name: string)
    requires Books(w, start, s, name) && statement != ""
    ensures Books(w, start, RunTestCase(w, statement, s).state, name)
  {
    CleanupBooks(w, start, s, name);
    if TestCaseId(statement).Some? {
      LogBooks(w, start, Cleanup(w, s), Accepted(TestCaseId(statement).value), name);
    }
  }

  lemma AssignmentBooks(w: World, start: seq<Tick>, statement: string, s: State, name: string)
    requires Books(w, start, s, name)
    requires statement != "" && NoDollar(statement[1..]) && '\0' !in statement
    ensures Books(w, start, RunAssignment(statement, s).state, name)
  {
    if Store(s.vars, statement[1..]).Some? {
      var a := ParseAssignment(statement[1..]).value;
      LogBooks(w, start, s, Stored(a.name, a.value), name);
    }
  }

  lemma {:induction false} ExecuteBooks(w: World, start: seq<Tick>, statement: string, s: State, depth: int, name: string)
    requires Books(w, start, s, name)
    requires statement != "" && NoDollar(statement[1..]) && '\0' !in statement
    requires 0 <= depth < MAX_SCRIPT_FILE_DEPTH
    ensures Books(w, start, Execute(w, statement, s, depth).state, name)
    decreases MAX_SCRIPT_FILE_DEPTH - depth, 1, 0
  {
    if IsInclude(statement) {
      if IncludeName(statement).Some? {
        FileBooks(w, start, IncludeName(statement).value, s, depth, name);
      }
    } else if statement[0] == '@' {
      TestCaseBooks(w, start, statement, s, name);
    } else if statement[0] == '<' || statement[0] == '>' {
      PacketBooks(w, start, statement, s, name);
    } else if statement[0] == '$' {
      AssignmentBooks(w, start, statement, s, name);
    }
  }

  lemma {:induction false} StepBooks(w: World, start: seq<Tick>, raw: string, s: State, depth: int, name: string)
    requires Books(w, start, s, name) && raw != "" && '\0' !in raw
    requires 0 <= depth < MAX_SCRIPT_FILE_DEPTH
    ensures Books(w, start, Step(w, raw, s, depth).state, name)
    decreases MAX_SCRIPT_FILE_DEPTH - depth, 2, 0
  {
    var e := Expand(raw, s.vars);
    if e.None? {
      LogBooks(w, start, s, ExpandFailed(depth, raw), name);
    } else {
      StepIs(w, raw, s, depth);
      var s' := Log(s, Expanded(depth, raw, e.value.text));
      LogBooks(w, start, s, Expanded(depth, raw, e.value.text), name);
      LogBooks(w, start, s', SkippedOver(e.value.text), name);
      ExecuteBooks(w, start, e.value.text, s', depth, name);
      var r := Execute(w, e.value.text, s', depth);
      LogBooks(w, start, r.state, Ran(e.value.text, r.ret), name);
    }
  }

  lemma {:induction false} RunBooks(w: World, start: seq<Tick>, ss: seq<string>, ret: int, s: State, depth: int, name: string)
    requires Books(w, start, s, name) && Readable(ss)
    requires 0 <= depth < MAX_SCRIPT_FILE_DEPTH
    ensures Books(w, start, RunStatements(w, ss, ret, s, depth).state, name)
    decreases MAX_SCRIPT_FILE_DEPTH - depth, 3, |ss|
  {
    if ss != [] {
      StepBooks(w, start, ss[0], s, depth, name);
      var r := Step(w, ss[0], s, depth);
      RunBooks(w, start, ss[1..], r.ret, r.state, depth, name);
    }
  }

  lemma {:induction false} FileBooks(w: World, start: seq<Tick>, file: string, s: State, depth: int, name: string)
    requires Books(w, start, s, name) && -1 <= depth < MAX_SCRIPT_FILE_DEPTH
    ensures Books(w, start, ProcessFile(w, file, s, depth).state, name)
    decreases MAX_SCRIPT_FILE_DEPTH - depth, 0, 0
  {
    if !CanOpen(w, file, depth) {
      LogBooks(w, start, s, OpenFailed(file), name);
    } else {
      ProcessIs(w, file, s, depth);
      LogBooks(w, start, s, Entered(file), name);
      RunBooks(w, start, w.files[file], SUCCESS, Log(s, Entered(file)), depth + 1, name);
    }
  }

  // ---------- Whole runs ----------

  lemma ProgramBooks(w: World, file: string, future: seq<Tick>, name: string)
    ensures Books(w, future, Program(w, file, future), name)
  {
    FileBooks(w, future, file, Initial(future), -1, name);
    CleanupBooks(w, future, ProcessFile(w, file, Initial(future), -1).state, name);
  }

  /** What came in for the port since it was opened, in the run so far. */
  function Brought(w: World, future: seq<Tick>, s: State, p: Port): seq<Packet>
    requires |s.dev.net.future| <= p.left <= |future|
  {
    Offered(w.cfg, p.name, Since(future, p.left, |s.dev.net.future|))
  }

  /** Conservation over a whole run, whatever comes in and when: for each open port, all frames of
      the ticks since it was opened that are for it and are not filtered, less those dropped, are,
      in order, the packets the run compared with a `<` or reported as not expected, followed by
      those still in the queue. The port is a bounded queue fed these frames tick by tick: a frame is
      dropped only when the queue is full, and nothing is when the queue has room for all. */
  lemma ProgramConserves(w: World, file: string, future: seq<Tick>, i: nat)
    requires i < |Program(w, file, future).dev.net.ports|
    ensures var s := Program(w, file, future);
            var p := s.dev.net.ports[i];
            && |s.dev.net.future| <= p.left <= |future|
            && s.dev.net.future == future[|future| - |s.dev.net.future|..]
            && Data(p.arrived) == Brought(w, future, s, p)
            && Kept(p.arrived) == TakenOn(p.name, s.trace) + p.queue
            && |p.queue| <= w.cfg.capacity
            && (exists acts :: Follows(w.cfg, p, Since(future, p.left, |s.dev.net.future|), acts))
            && (|Brought(w, future, s, p)| <= w.cfg.capacity ==>
                  TakenOn(p.name, s.trace) + p.queue == Brought(w, future, s, p))
  {
    var s := Program(w, file, future);
    var p := s.dev.net.ports[i];
    ProgramBooks(w, file, future, p.name);
    FindDistinct(s.dev.net.ports, i);
    assert Conserved(p);
    assert PortFed(w.cfg, future, |s.dev.net.future|, p);
    var acts :| Follows(w.cfg, p, Since(future, p.left, |s.dev.net.future|), acts);
    if |Brought(w, future, s, p)| <= w.cfg.capacity {
      NothingLost(w.cfg.capacity, acts);
    }
  }
}
