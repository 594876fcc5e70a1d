/** The limits of the program, with their numbers. */
module Limits {
  import opened Text
  import opened Checksum
  import opened Variables
  import opened PacketSpec
  import opened Trace
  import opened Interpreter
  import opened StatementEvents
  import opened LoopbackTest
  import opened Names
  import opened Witnesses

  /** The table takes new variables until it has 99. */
  lemma VariableRoom(vars: map<string, string>, name: string)
    ensures HasRoom(vars, name) <==> name in vars || |vars| <= 98
  {
  }

  /** A statement may ask for ten checksums and no more. */
  lemma TenChecksums(body: Body)
    requires FieldsInBuffer(body.fields, 9000)
    ensures Sound(body) <==> |body.fields| <= 10
  {
  }

  /** The name of a port has at most nineteen characters. */
  lemma PortNameLength(statement: string)
    requires statement != ""
    ensures PortOf(statement) ==
            if Tokens(statement[1..]) != [] && |Tokens(statement[1..])[0]| <= 19 then Some(Tokens(statement[1..])[0]) else None
  {
  }

  /** A packet has at most 9000 bytes, and every packet up to that which has no bad token is read. */
  lemma {:induction false} PacketLength(ts: seq<Token>, at: nat)
    requires at <= 9000
    ensures Assemble(ts, at).Some? <==> at + TotalWidth(ts) <= 9000 && forall i :: 0 <= i < |ts| ==> !ts[i].Bad?
    decreases ts
  {
    if ts != [] {
      if at + Width(ts[0]) <= 9000 {
        PacketLength(ts[1..], at + Width(ts[0]));
      }
      assert (forall i :: 0 <= i < |ts| ==> !ts[i].Bad?) <==> !ts[0].Bad? && forall i :: 0 <= i < |ts[1..]| ==> !ts[1..][i].Bad?
        by { HeadAndRest(ts); }
    }
  }

  lemma HeadAndRest(ts: seq<Token>)
    requires ts != []
    ensures (forall i :: 0 <= i < |ts| ==> !ts[i].Bad?) <==>
            !ts[0].Bad? && forall i :: 0 <= i < |ts[1..]| ==> !ts[1..][i].Bad?
  {
    if !ts[0].Bad? && forall i :: 0 <= i < |ts[1..]| ==> !ts[1..][i].Bad? {
      forall i | 0 <= i < |ts| ensures !ts[i].Bad? {
        assert i > 0 ==> ts[i] == ts[1..][i - 1];
      }
    }
    assert forall i :: 0 <= i < |ts[1..]| ==> ts[1..][i] == ts[i + 1];
  }

  /** A file is opened when it is there and at most four are open. */
  lemma FileDepth(w: World, name: string, depth: int)
    ensures CanOpen(w, name, depth) <==> name in w.files && depth + 1 <= 4
  {
  }

  // ---------- A chain of six files ----------

  function IncludeOf(name: string): string {
    Including([name])
  }

  /** Six files, each but the last including the next. */
  predicate Chained(w: World, names: seq<string>) {
    && |names| == 6
    && (forall i :: 0 <= i < 6 ==> IsWord(names[i]) && GoodFileName(names[i]) && Storable(names[i]))
    && (forall i :: 0 <= i < 5 ==> names[i] in w.files && w.files[names[i]] == [IncludeOf(names[i + 1])])
  }

  function ChainEvents(names: seq<string>, d: nat): seq<Event>
    requires |names| == 6 && d <= 5
    decreases 5 - d
  {
    if d == 5 then [OpenFailed(names[5])]
    else
      var stmt := IncludeOf(names[d + 1]);
      [Entered(names[d]), Expanded(d, stmt, stmt)] + ChainEvents(names, d + 1) + [Ran(stmt, 0)]
  }

  lemma IncludeReads(name: string)
    requires IsWord(name) && GoodFileName(name) && Storable(name)
    ensures var stmt := IncludeOf(name);
            && stmt != "" && NoDollar(stmt[1..]) && '\0' !in stmt && IsInclude(stmt) && IncludeName(stmt) == Some(name)
  {
    IncludeTokens([name]);
    FileNameAccepted(IncludeOf(name));
    JoinStorable([name]);
    assert IncludeOf(name)[1..] == Join([name]);
  }

  lemma IncludeRuns(w: World, name: string, s: State, depth: int)
    requires IsWord(name) && GoodFileName(name) && Storable(name)
    requires 0 <= depth < MAX_SCRIPT_FILE_DEPTH && !Halted(s.verdict)
    ensures var stmt := IncludeOf(name);
            && stmt != "" && '\0' !in stmt
            && Step(w, stmt, s, depth) == Finish(stmt, ProcessFile(w, name, Log(s, Expanded(depth, stmt, stmt)), depth))
  {
    var stmt := IncludeOf(name);
    IncludeReads(name);
    hide IncludeOf, IncludeName;
    NothingToExpand(stmt, s.vars);
    StepIs(w, stmt, s, depth);
    ConsiderIs(w, stmt, 0, Log(s, Expanded(depth, stmt, stmt)), depth);
  }

  lemma ChainAppend(t: seq<Event>, a: Event, b: Event, more: seq<Event>, c: Event)
    ensures t + [a] + [b] + more + [c] == t + ([a, b] + more + [c])
  {
  }

  lemma {:induction false} Chain(w: World, names: seq<string>, s: State, d: nat)
    requires Chained(w, names) && d <= 5 && !Halted(s.verdict)
    ensures ProcessFile(w, names[d], s, d - 1) ==
            Result(s.(verdict := if d == 5 then s.verdict else Skipped, trace := s.trace + ChainEvents(names, d)), 0)
    decreases 5 - d
  {
    if d < 5 {
      var stmt := IncludeOf(names[d + 1]);
      var inside := Log(s, Entered(names[d]));
      IncludeReads(names[d + 1]);
      ProcessIs(w, names[d], s, d - 1);
      RunOne(w, stmt, SUCCESS, inside, d);
      IncludeRuns(w, names[d + 1], inside, d);
      Chain(w, names, Log(inside, Expanded(d, stmt, stmt)), d + 1);
      ChainAppend(s.trace, Entered(names[d]), Expanded(d, stmt, stmt), ChainEvents(names, d + 1), Ran(stmt, 0));
    }
  }

  /** Of six files in a chain the first five are opened and the sixth is not, and the run is reported
      SKIPPED. */
  lemma SixFiles(w: World, names: seq<string>)
    requires Chained(w, names)
    ensures Program(w, names[0], []).trace == ChainEvents(names, 0) + [Reported("", Skipped)]
    ensures Opened(ChainEvents(names, 0)) == names[..5]
  {
    Chain(w, names, Initial([]), 0);
    QuietCleanup(w, ProcessFile(w, names[0], Initial([]), -1).state, []);
    assert [] + ChainEvents(names, 0) == ChainEvents(names, 0);
    ChainOpens(names, 0);
    assert names[0..5] == names[..5];
  }

  /** The files a history has opened. */
  function Opened(t: seq<Event>): seq<string> {
    if t == [] then [] else Opened(t[..|t| - 1]) + (if t[|t| - 1].Entered? then [t[|t| - 1].name] else [])
  }

  lemma {:induction false} OpenedAppend(t: seq<Event>, u: seq<Event>)
    ensures Opened(t + u) == Opened(t) + Opened(u)
    decreases |u|
  {
    if u == [] {
      assert t + u == t && Opened(t) + [] == Opened(t);
    } else {
      assert (t + u)[..|t + u| - 1] == t + u[..|u| - 1];
      OpenedAppend(t, u[..|u| - 1]);
    }
  }

  lemma {:induction false} ChainOpens(names: seq<string>, d: nat)
    requires |names| == 6 && d <= 5
    ensures Opened(ChainEvents(names, d)) == names[d..5]
    decreases 5 - d
  {
    if d < 5 {
      var stmt := IncludeOf(names[d + 1]);
      var front := [Entered(names[d]), Expanded(d, stmt, stmt)];
      ChainOpens(names, d + 1);
      OpenedAppend(front, ChainEvents(names, d + 1));
      OpenedAppend(front + ChainEvents(names, d + 1), [Ran(stmt, 0)]);
      assert front[..1] == [Entered(names[d])] && front[..1][..0] == [];
      assert Opened(front) == [names[d]];
      assert [Ran(stmt, 0)][..0] == [] && Opened([Ran(stmt, 0)]) == [];
      assert [names[d]] + names[d + 1..5] + [] == names[d..5];
    } else {
      assert [OpenFailed(names[5])][..0] == [];
    }
  }

  // ---------- A test case ----------

  const T1 := "@T1"

  lemma T1Reads()
    ensures T1 == Naming(["T1"]) && GoodId("T1") && IsWord("T1") && NoDollar(T1[1..]) && '\0' !in T1
  {
    hide LetterOrDigit;
    IdChars("T1");
    assert Join(["T1"]) == "T1" && "T1" + "" == "T1";
  }

  /** The script `@T1`: one test case of that name, reported PASSED. */
  lemma T1Run(w: World)
    requires "s" in w.files && w.files["s"] == [T1]
    ensures Program(w, "s", []).trace ==
            [Entered("s"), Expanded(0, T1, T1), Accepted("T1"), Ran(T1, 1), Reported("T1", Passed)]
  {
    var s := Log(Initial([]), Entered("s"));
    var x := Log(s, Expanded(0, T1, T1));
    T1Reads();
    QuietCleanup(w, x, []);
    GoodIdStarts(w, x, "T1");
    hide RunTestCase, GoodId, Naming;
    NothingToExpand(T1, s.vars);
    StepIs(w, T1, s, 0);
    ConsiderIs(w, T1, 0, x, 0);
    RunOne(w, T1, SUCCESS, s, 0);
    ProcessIs(w, "s", Initial([]), -1);
    QuietCleanup(w, Step(w, T1, s, 0).state, []);
  }
}
