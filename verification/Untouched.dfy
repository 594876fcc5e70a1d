/** Checksums over whole runs: where no earlier statement has written, the buffer of packetSend
    still holds zero, and so the checksum of the first packet that goes that far is right. */
module Untouched {
  import opened Checksum
  import opened Variables
  import opened Expansion
  import opened Ports
  import opened PacketSpec
  import opened Trace
  import opened Interpreter
  import opened StatementEvents

  // ---------- How far the statements of a run have written ----------

  /** The number of bytes a statement may write to the buffer. */
  function WidthOf(stmt: string): nat {
    if stmt != "" && stmt[0] == '>' && PortOf(stmt).Some? && BodyOf(stmt).Some?
    then |BodyOf(stmt).value.cells| else 0
  }

  function WidthBy(e: Event): nat {
    if e.Ran? then WidthOf(e.stmt) else 0
  }

  function Max(a: nat, b: nat): nat {
    if a < b then b else a
  }

  /** The end of what the statements that have run may have written. */
  function Reach(t: seq<Event>): nat {
    if t == [] then 0 else Max(Reach(t[..|t| - 1]), WidthBy(t[|t| - 1]))
  }

  lemma {:induction false} ReachBelow(t: seq<Event>, n: nat)
    requires forall k :: 0 <= k < |t| ==> WidthBy(t[k]) <= n
    ensures Reach(t) <= n
    decreases |t|
  {
    if t != [] {
      ReachBelow(t[..|t| - 1], n);
    }
  }

  ghost predicate ZeroFrom(buffer: seq<byte>, n: nat) {
    forall j :: n <= j < |buffer| ==> buffer[j] == 0
  }

  // ---------- What is sent ----------

  /** A range of the packet that has an even size, owns its field, gets no later one, and whose field
      nothing has written before. */
  predicate FirstField(body: Body, q: nat, reach: nat) {
    && q < |body.fields| && Own(body.fields[q]) && LastInRange(body.fields, q)
    && body.fields[q].end < |body.cells| && reach <= body.fields[q].pos
  }

  /** Each range of a packet whose field nothing has written before checks. */
  ghost predicate SentWell(reach: nat, e: Event) {
    e.Sent? ==>
      && |e.packet| == |e.body.cells|
      && forall q: nat :: FirstField(e.body, q, reach) ==> Checks(e.packet, e.body.fields[q].start, e.body.fields[q].end)
  }

  ghost predicate AllSentWell(t: seq<Event>) {
    t == [] || (AllSentWell(t[..|t| - 1]) && SentWell(Reach(t[..|t| - 1]), t[|t| - 1]))
  }

  lemma SnocWell(t: seq<Event>, e: Event)
    requires AllSentWell(t) && SentWell(Reach(t), e)
    ensures AllSentWell(t + [e]) && Reach(t + [e]) == Max(Reach(t), WidthBy(e))
  {
    assert (t + [e])[..|t|] == t;
  }

  lemma {:induction false} ShownWell(stmt: string, t: seq<Event>, u: seq<Event>)
    requires stmt != "" && Shows(stmt, t, u) && AllSentWell(t) && stmt[0] != '>'
    ensures AllSentWell(u) && Reach(u) == Reach(t)
    decreases |u|
  {
    if u != t {
      ShownWell(stmt, t, u[..|u| - 1]);
    }
  }

  lemma {:induction false} WellAt(t: seq<Event>, i: nat)
    requires AllSentWell(t) && i < |t|
    ensures SentWell(Reach(t[..i]), t[i])
    decreases |t|
  {
    if i < |t| - 1 {
      WellAt(t[..|t| - 1], i);
      assert t[..|t| - 1][..i] == t[..i];
    }
  }

  /** The packet and the buffer that a send statement leaves. */
  lemma BuildWell(body: Body, recv: seq<byte>, nRecv: nat, buffer: seq<byte>, reach: nat, port: string)
    requires |body.cells| <= |buffer| == MAX_PKT_SIZE && nRecv <= |recv| && Sound(body) && Matching(body, 0)
    requires ZeroFrom(buffer, reach)
    ensures var r := Build(body, recv, nRecv, buffer);
            && ZeroFrom(r.buffer, Max(reach, |body.cells|))
            && (r.ok ==> SentWell(reach, Sent(port, body, r.buffer[..|body.cells|])))
  {
    BuildCarries(body, recv, nRecv, buffer);
    var r := Build(body, recv, nRecv, buffer);
    if r.ok {
      forall q: nat | FirstField(body, q, reach)
        ensures Checks(r.buffer[..|body.cells|], body.fields[q].start, body.fields[q].end)
      {
        SentChecks(body, recv, nRecv, buffer, q);
        HeldZero(buffer, body.fields[q]);
      }
    }
  }

  // ---------- Runs ----------

  /** The invariant between statements. */
  ghost predicate Zeroed(s: State) {
    ZeroFrom(s.dev.buffer, Reach(s.trace)) && AllSentWell(s.trace)
  }

  lemma LogZero(s: State, e: Event)
    requires Zeroed(s) && !e.Sent? && !e.Ran?
    ensures Zeroed(Log(s, e)) && Reach(Log(s, e).trace) == Reach(s.trace)
  {
    SnocWell(s.trace, e);
  }

  lemma CleanupZero(w: World, s: State)
    requires Zeroed(s)
    ensures Zeroed(Cleanup(w, s)) && Reach(Cleanup(w, s).trace) == Reach(s.trace)
  {
    CleanupShows(w, "@", s);
    ShownWell("@", s.trace, Cleanup(w, s).trace);
  }

  lemma BegunZero(w: World, s: State)
    requires Zeroed(s)
    ensures Zeroed(Begun(w, s)) && Reach(Begun(w, s).trace) == Reach(s.trace)
  {
    hide Cleanup, SentWell, ZeroFrom;
    CleanupZero(w, s);
    LogZero(Cleanup(w, s), Started);
  }

  /** The state after a statement was executed, before it is noted as run. */
  ghost predicate Leaves(stmt: string, s: State) {
    ZeroFrom(s.dev.buffer, Max(Reach(s.trace), WidthOf(stmt))) && AllSentWell(s.trace)
  }

  /** What a packet statement leaves in the buffer, and what it sends. */
  lemma ProcessZero(cfg: Config, stmt: string, dev: Dev, reach: nat)
    requires stmt != "" && (stmt[0] == '<' || stmt[0] == '>') && ZeroFrom(dev.buffer, reach)
    ensures var o := PacketProcess(cfg, stmt, dev);
            && ZeroFrom(o.dev.buffer, Max(reach, WidthOf(stmt)))
            && (o.shown.Some? ==> SentWell(reach, o.shown.value) && !o.shown.value.Ran?)
  {
    var port := PortOf(stmt);
    if port.Some? {
      var o := Open(cfg, dev.net, port.value);
      var d := dev.(net := o.net);
      var body := BodyOf(stmt);
      if o.ok && body.Some? {
        BodyFits(stmt);
        BodyMatching(stmt);
        if stmt[0] == '<' {
          ReceiveZero(cfg, port.value, body.value, d);
        } else {
          BuildWell(body.value, d.recv, d.nRecv, d.buffer, reach, port.value);
        }
      }
    }
  }

  lemma ReceiveZero(cfg: Config, port: string, body: Body, dev: Dev)
    ensures var o := PacketReceive(cfg, port, body, dev);
            && o.dev.buffer == dev.buffer
            && o.shown.Some? && !o.shown.value.Sent? && !o.shown.value.Ran?
  {
  }

  lemma PacketZero(w: World, stmt: string, s: State)
    requires Zeroed(s) && stmt != "" && (stmt[0] == '<' || stmt[0] == '>')
    ensures Leaves(stmt, RunPacket(w, stmt, s).state)
  {
    hide PacketProcess, AllSentWell, SentWell;
    BegunZero(w, s);
    var b := Begun(w, s);
    ProcessZero(w.cfg, stmt, b.dev, Reach(b.trace));
    var o := PacketProcess(w.cfg, stmt, b.dev);
    if o.shown.Some? {
      SnocWell(b.trace, o.shown.value);
    }
  }

  /** A statement other than a packet or an include. */
  lemma OtherZero(w: World, stmt: string, s: State, depth: int)
    requires Zeroed(s) && stmt != "" && NoDollar(stmt[1..]) && '\0' !in stmt
    requires 0 <= depth < MAX_SCRIPT_FILE_DEPTH
    requires stmt[0] != '<' && stmt[0] != '>' && !IsInclude(stmt)
    ensures Leaves(stmt, Execute(w, stmt, s, depth).state)
  {
    PlainShows(w, stmt, s, depth);
    ShownWell(stmt, s.trace, Execute(w, stmt, s, depth).state.trace);
  }

  lemma {:induction false} ExecuteZero(w: World, stmt: string, s: State, depth: int)
    requires Zeroed(s) && stmt != "" && NoDollar(stmt[1..]) && '\0' !in stmt
    requires 0 <= depth < MAX_SCRIPT_FILE_DEPTH
    ensures Leaves(stmt, Execute(w, stmt, s, depth).state)
    decreases MAX_SCRIPT_FILE_DEPTH - depth, 1, 0
  {
    if IsInclude(stmt) {
      if IncludeName(stmt).Some? {
        ProcessFileZero(w, IncludeName(stmt).value, s, depth);
      }
    } else if stmt[0] == '<' || stmt[0] == '>' {
      PacketZero(w, stmt, s);
    } else {
      OtherZero(w, stmt, s, depth);
    }
  }

  lemma FinishZero(stmt: string, r: Result)
    requires Leaves(stmt, r.state)
    ensures Zeroed(Finish(stmt, r).state)
  {
    SnocWell(r.state.trace, Ran(stmt, r.ret));
  }

  lemma {:induction false} StepZero(w: World, raw: string, s: State, depth: int)
    requires Zeroed(s) && raw != "" && '\0' !in raw
    requires 0 <= depth < MAX_SCRIPT_FILE_DEPTH
    ensures Zeroed(Step(w, raw, s, depth).state)
    decreases MAX_SCRIPT_FILE_DEPTH - depth, 2, 0
  {
    hide AllSentWell, ZeroFrom, Reach, Leaves, Execute;
    var e := Expand(raw, s.vars);
    if e.None? {
      LogZero(s, ExpandFailed(depth, raw));
    } else {
      StepIs(w, raw, s, depth);
      var x := Log(s, Expanded(depth, raw, e.value.text));
      LogZero(s, Expanded(depth, raw, e.value.text));
      if e.value.text[0] != '@' && Halted(s.verdict) {
        LogZero(x, SkippedOver(e.value.text));
      } else {
        ConsiderIs(w, e.value.text, e.value.count, x, depth);
        ExecuteZero(w, e.value.text, x, depth);
        FinishZero(e.value.text, Execute(w, e.value.text, x, depth));
      }
    }
  }

  lemma {:induction false} RunZero(w: World, ss: seq<string>, ret: int, s: State, depth: int)
    requires Zeroed(s) && Readable(ss)
    requires 0 <= depth < MAX_SCRIPT_FILE_DEPTH
    ensures Zeroed(RunStatements(w, ss, ret, s, depth).state)
    decreases MAX_SCRIPT_FILE_DEPTH - depth, 3, |ss|
  {
    hide Zeroed, Step;
    if ss != [] {
      var r := Step(w, ss[0], s, depth);
      StepZero(w, ss[0], s, depth);
      RunZero(w, ss[1..], r.ret, r.state, depth);
    }
  }

  lemma {:induction false} ProcessFileZero(w: World, name: string, s: State, depth: int)
    requires Zeroed(s) && -1 <= depth < MAX_SCRIPT_FILE_DEPTH
    ensures Zeroed(ProcessFile(w, name, s, depth).state)
    decreases MAX_SCRIPT_FILE_DEPTH - depth, 0, 0
  {
    hide Zeroed, RunStatements;
    if !CanOpen(w, name, depth) {
      LogZero(s, OpenFailed(name));
    } else {
      ProcessIs(w, name, s, depth);
      LogZero(s, Entered(name));
      RunZero(w, w.files[name], SUCCESS, Log(s, Entered(name)), depth + 1);
    }
  }

  /** Over whole runs: in a packet that is sent, every even range that owns its field and gets no
      later one checks, when no `>` statement that ran before was long enough to reach the field. */
  lemma ProgramChecks(w: World, name: string, future: seq<Tick>, i: nat, q: nat)
    requires i < |Program(w, name, future).trace| && Program(w, name, future).trace[i].Sent?
    requires var t := Program(w, name, future).trace;
             && FirstField(t[i].body, q, 0)
             && forall k :: 0 <= k < i ==> WidthBy(t[k]) <= t[i].body.fields[q].pos
    ensures var e := Program(w, name, future).trace[i];
            |e.packet| == |e.body.cells| && Checks(e.packet, e.body.fields[q].start, e.body.fields[q].end)
  {
    var t := Program(w, name, future).trace;
    var last := ProcessFile(w, name, Initial(future), -1).state;
    ProcessFileZero(w, name, Initial(future), -1);
    CleanupZero(w, last);
    WellAt(t, i);
    ReachBelow(t[..i], t[i].body.fields[q].pos);
    assert FirstField(t[i].body, q, Reach(t[..i]));
  }
}
