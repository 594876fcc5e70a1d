/** edpat.c, testcase.c and the file handling of scripts.c as the program has them: global
    variables that each function updates, and a loop that calls itself for included files.
    Every method is proved against the function of Interpreter of the same purpose. */
module Tester {
  import opened Text
  import opened ScriptReader
  import opened Variables
  import opened Expansion
  import opened Ports
  import opened Trace
  import opened Interpreter
  import opened PacketEngine

  class Edpat {
    const texts: map<string, string>
    const syntaxCheckOnly: bool
    const g: Globals
    const vars: VarTable
    const engine: Engine
    ghost const w: World               // the setting as the interpreter's functions take it
    var scriptFileDepth: int

    ghost predicate Valid()
      reads this, Repr()
    {
      && engine.g == g && engine.Valid() && vars.Valid()
      && w == World(Load(texts), syntaxCheckOnly, engine.table.cfg)
      && -1 <= scriptFileDepth < MAX_SCRIPT_FILE_DEPTH
    }

    ghost function Repr(): set<object> {
      {this, vars, vars.names, vars.values} + engine.Repr()
    }

    ghost function View(): State
      requires Valid()
      reads this, Repr(), g
    {
      State(g.currentTestResult, g.currentTestCaseId, vars.Map(), engine.View(), g.shown)
    }

    /** The program as it starts, in front of what the outside will do. */
    constructor (texts: map<string, string>, syntaxCheckOnly: bool, cfg: Config, future: seq<Tick>)
      ensures Valid() && scriptFileDepth == -1
      ensures w == World(Load(texts), syntaxCheckOnly, cfg) && View() == Initial(future)
    {
      this.texts := texts;
      this.syntaxCheckOnly := syntaxCheckOnly;
      var globals := new Globals();
      var table := new PortTable(cfg, future);
      g := globals;
      vars := new VarTable();
      engine := new Engine(globals, table);
      scriptFileDepth := -1;
      w := World(Load(texts), syntaxCheckOnly, cfg);
    }

    /** One more event in the history, and nothing else. */
    method Note(e: Event)
      requires Valid()
      modifies g`shown
      ensures Valid() && View() == Log(old(View()), e)
    {
      g.Show(e);
    }

    /** The assignment to CurrentTestResult. */
    method SetResult(v: Verdict)
      requires Valid()
      modifies g`currentTestResult
      ensures Valid() && View() == old(View()).(verdict := v)
    {
      g.currentTestResult := v;
    }

    // ---------- testcase.c, and CheckUnexpectedPackets of packet.c ----------

    method LookAtQueues()
      requires Valid()
      modifies g, engine.table
      ensures Valid() && View() == CheckQueues(w, old(View()))
    {
      CheckUnexpectedPackets(g, engine.table);
    }

    method TestCaseFinalResultPrint()
      requires g.currentTestResult != Unknown
      modifies g`shown
      ensures g.shown == old(g.shown) + [Reported(g.currentTestCaseId, g.currentTestResult)]
    {
      g.Show(Reported(g.currentTestCaseId, g.currentTestResult));
    }

    method CleanupLastTestExecution()
      requires Valid()
      modifies g, engine.table
      ensures Valid() && View() == Cleanup(w, old(View()))
    {
      LookAtQueues();
      if g.currentTestResult != Unknown {
        TestCaseFinalResultPrint();
      }
    }

    method GetTestCaseID(statement: string) returns (ret: int)
      requires Valid() && statement != ""
      modifies g, engine.table
      ensures Valid()
      ensures Result(View(), ret) == RunTestCase(w, statement, old(View()))
    {
      var line := statement[..Min(|statement|, MAX_SCRIPT_LINE_LEN)];
      var tokens := Tokens(line[1..]);
      if tokens == [] {
        return FAILED;
      }
      var testCaseId := tokens[0];
      var i := 0;
      while i < |testCaseId|
        invariant i <= |testCaseId| && forall k :: 0 <= k < i ==> IsIdChar(testCaseId[k])
      {
        if !IsAlnum(testCaseId[i]) && testCaseId[i] != '_' {
          return FAILED;
        }
        i := i + 1;
      }
      if MAX_TESTCASE_ID_LEN <= |testCaseId| {
        return FAILED;
      }
      if |tokens| > 1 {
        return FAILED;
      }
      assert TestCaseId(statement) == Some(testCaseId);
      CleanupLastTestExecution();
      g.currentTestResult := Passed;
      g.currentTestCaseId := testCaseId;
      g.Show(Accepted(testCaseId));
      return SUCCESS;
    }

    // ---------- The cases of the switch of TestScriptProcess ----------

    /** The first packet outside any test case starts one. */
    method BeginIfUnknown()
      requires Valid()
      modifies g, engine.table
      ensures Valid() && View() == Begun(w, old(View()))
    {
      if g.currentTestResult == Unknown {
        CleanupLastTestExecution();
        g.currentTestResult := Passed;
        g.Show(Started);
      }
    }

    /** `<` and `>`. */
    method ProcessPacketStatement(statement: string) returns (ret: int)
      requires Valid() && statement != ""
      modifies engine.Repr()
      ensures Valid()
      ensures Result(View(), ret) == RunPacket(w, statement, old(View()))
    {
      BeginIfUnknown();
      if syntaxCheckOnly {
        return SUCCESS;
      }
      ret := SendOrReceive(statement);
    }

    method SendOrReceive(statement: string) returns (ret: int)
      requires Valid() && statement != ""
      modifies engine.Repr()
      ensures Valid()
      ensures var o := Interpreter.PacketProcess(w.cfg, statement, old(View()).dev);
              View() == After(old(View()), o) && ret == o.ret
    {
      ghost var b := View();
      ret := engine.PacketProcess(statement);
      ShowOutcome(b, Interpreter.PacketProcess(w.cfg, statement, b.dev), View());
    }

    /** `$`. */
    method ProcessAssignment(statement: string) returns (ret: int)
      requires Valid() && statement != "" && NoDollar(statement[1..]) && '\0' !in statement
      modifies g`shown, vars, vars.names, vars.values
      ensures Valid()
      ensures Result(View(), ret) == RunAssignment(statement, old(View()))
    {
      var ok := vars.VariableStoreValue(statement[1..]);
      if !ok {
        return FAILED;
      }
      var a := ParseAssignment(statement[1..]).value;
      g.Show(Stored(a.name, a.value));
      return SUCCESS;
    }

    method ScriptIncludeFile(statement: string) returns (ret: int)
      requires Valid() && statement != "" && 0 <= scriptFileDepth
      modifies Repr()
      ensures Valid() && scriptFileDepth == old(scriptFileDepth)
      ensures Result(View(), ret) ==
              match IncludeName(statement)
              case None => Result(old(View()), FAILED)
              case Some(name) => ProcessFile(w, name, old(View()), old(scriptFileDepth))
      decreases MAX_SCRIPT_FILE_DEPTH - scriptFileDepth, 1
    {
      var tokens := Tokens(statement[1..]);
      if tokens == [] {
        return FAILED;
      }
      var includeFileName := tokens[0];
      var i := 0;
      while i < |includeFileName|
        invariant i <= |includeFileName| && forall k :: 0 <= k < i ==> IsFileChar(includeFileName[k])
      {
        if !IsFileChar(includeFileName[i]) {
          return FAILED;
        }
        i := i + 1;
      }
      if |tokens| > 1 {
        return FAILED;
      }
      ret := TestScriptProcess(includeFileName);
    }

    /** The switch on the first character. */
    method Dispatch(statement: string) returns (ret: int)
      requires Valid() && 0 <= scriptFileDepth
      requires statement != "" && NoDollar(statement[1..]) && '\0' !in statement
      modifies Repr()
      ensures Valid() && scriptFileDepth == old(scriptFileDepth)
      ensures Result(View(), ret) == Execute(w, statement, old(View()), old(scriptFileDepth))
      decreases MAX_SCRIPT_FILE_DEPTH - scriptFileDepth, 2
    {
      match statement[0] {
        case '#' => ret := ScriptIncludeFile(statement);
        case '@' => ret := GetTestCaseID(statement);
        case '<' => ret := ProcessPacketStatement(statement);
        case '>' => ret := ProcessPacketStatement(statement);
        case '$' => ret := ProcessAssignment(statement);
        case _ => ret := FAILED;
      }
    }

    /** The statement once expanded: passed over in a test case that is failed or skipped, and
        executed otherwise. */
    method ProcessExpanded(statement: string, count: int) returns (ret: int)
      requires Valid() && 0 <= scriptFileDepth
      requires statement != "" && NoDollar(statement[1..]) && '\0' !in statement
      modifies Repr()
      ensures Valid() && scriptFileDepth == old(scriptFileDepth)
      ensures Result(View(), ret) == Consider(w, statement, count, old(View()), old(scriptFileDepth))
      decreases MAX_SCRIPT_FILE_DEPTH - scriptFileDepth, 3
    {
      if statement[0] != '@' && (g.currentTestResult == Skipped || g.currentTestResult == Failed) {
        Note(SkippedOver(statement));
        return count;
      }
      ret := Dispatch(statement);
      Note(Ran(statement, ret));
      if ret != SUCCESS {
        SetResult(Skipped);
      }
    }

    /** One round of the loop of TestScriptProcess. */
    method ProcessStatement(raw: string) returns (ret: int)
      requires Valid() && 0 <= scriptFileDepth
      requires raw != "" && '\0' !in raw
      modifies Repr()
      ensures Valid() && scriptFileDepth == old(scriptFileDepth)
      ensures Result(View(), ret) == Step(w, raw, old(View()), old(scriptFileDepth))
      decreases MAX_SCRIPT_FILE_DEPTH - scriptFileDepth, 4
    {
      var count, statement := ScriptSubstituteVariables(raw, vars);
      if count < 0 {
        Note(ExpandFailed(scriptFileDepth, raw));
        SetResult(Skipped);
        return -1;
      }
      ExpandIsFinal(raw, vars.Map());
      Note(Expanded(scriptFileDepth, raw, statement));
      ret := ProcessExpanded(statement, count);
    }

    // ---------- Files ----------

    method ScriptOpen(fileName: string) returns (fp: ScriptFile?)
      requires Valid()
      modifies this`scriptFileDepth, g`shown
      ensures Valid()
      ensures fp == null <==> !CanOpen(w, fileName, old(scriptFileDepth))
      ensures fp == null ==> scriptFileDepth == old(scriptFileDepth) && View() == Log(old(View()), OpenFailed(fileName))
      ensures fp != null ==> fresh(fp) && fp !in Repr() && fp.unread == texts[fileName] && w.files[fileName] == ScriptOf(fp.unread)
                             && scriptFileDepth == old(scriptFileDepth) + 1 && View() == Log(old(View()), Entered(fileName))
    {
      if MAX_SCRIPT_FILE_DEPTH - 1 <= scriptFileDepth {
        Note(OpenFailed(fileName));
        return null;
      }
      if fileName !in texts {
        Note(OpenFailed(fileName));
        return null;
      }
      fp := new ScriptFile(texts[fileName]);
      scriptFileDepth := scriptFileDepth + 1;
      Note(Entered(fileName));
    }

    method ScriptClose()
      requires Valid() && 0 <= scriptFileDepth
      modifies this`scriptFileDepth
      ensures Valid() && scriptFileDepth == old(scriptFileDepth) - 1 && View() == old(View())
    {
      scriptFileDepth := scriptFileDepth - 1;
    }

    /** A round of the loop, and the statement for the next. */
    method NextRound(fp: ScriptFile, statement: string, ret: int) returns (retVal: int, next: string)
      requires Valid() && 0 <= scriptFileDepth && fp !in Repr()
      requires statement != "" && '\0' !in statement
      modifies Repr(), fp
      ensures Valid() && scriptFileDepth == old(scriptFileDepth) && '\0' !in next
      ensures ToGo(next, fp.unread) < ToGo(statement, old(fp.unread))
      ensures Pending(w, next, fp.unread, retVal, View(), scriptFileDepth) ==
              Pending(w, statement, old(fp.unread), ret, old(View()), old(scriptFileDepth))
      decreases MAX_SCRIPT_FILE_DEPTH - scriptFileDepth, 5
    {
      PendingStep(w, statement, fp.unread, ret, View(), scriptFileDepth);
      retVal := ProcessStatement(statement);
      next := fp.ReadStatement();
    }

    /** The loop of TestScriptProcess. */
    method ProcessStatements(fp: ScriptFile) returns (retVal: int)
      requires Valid() && 0 <= scriptFileDepth && fp !in Repr()
      modifies Repr(), fp
      ensures Valid() && scriptFileDepth == old(scriptFileDepth)
      ensures Result(View(), retVal) ==
              RunStatements(w, ScriptOf(old(fp.unread)), SUCCESS, old(View()), old(scriptFileDepth))
      decreases MAX_SCRIPT_FILE_DEPTH - scriptFileDepth, 6
    {
      retVal := SUCCESS;
      PendingStart(w, fp.unread, View(), scriptFileDepth);
      ghost var result := RunStatements(w, ScriptOf(fp.unread), SUCCESS, View(), scriptFileDepth);
      var statement := fp.ReadStatement();
      while statement != ""
        invariant Valid() && scriptFileDepth == old(scriptFileDepth) && '\0' !in statement
        invariant Pending(w, statement, fp.unread, retVal, View(), scriptFileDepth) == result
        decreases ToGo(statement, fp.unread)
      {
        retVal, statement := NextRound(fp, statement, retVal);
      }
    }

    /** edpat.c TestScriptProcess. It ends on all files, also on files that include each other,
        and leaves the depth as it found it. */
    method TestScriptProcess(fileName: string) returns (retVal: int)
      requires Valid()
      modifies Repr()
      ensures Valid() && scriptFileDepth == old(scriptFileDepth)
      ensures Result(View(), retVal) == ProcessFile(w, fileName, old(View()), old(scriptFileDepth))
      decreases MAX_SCRIPT_FILE_DEPTH - scriptFileDepth, 0
    {
      hide RunStatements, ProcessFile, ScriptOf, CanOpen, Log;
      ghost var s, depth := View(), scriptFileDepth;
      var fp := ScriptOpen(fileName);
      OpenedOrNot(w, fileName, s, depth, fp != null, View());
      if fp == null {
        retVal := FAILED;
      } else {
        retVal := ProcessOpenFile(fp);
      }
    }

    method ProcessOpenFile(fp: ScriptFile) returns (retVal: int)
      requires Valid() && 0 <= scriptFileDepth && fp !in Repr()
      modifies Repr(), fp
      ensures Valid() && scriptFileDepth == old(scriptFileDepth) - 1
      ensures Result(View(), retVal) ==
              RunStatements(w, ScriptOf(old(fp.unread)), SUCCESS, old(View()), old(scriptFileDepth))
      decreases MAX_SCRIPT_FILE_DEPTH - scriptFileDepth, 7
    {
      retVal := ProcessStatements(fp);
      ScriptClose();
    }

    /** main, behind its command line: the script, and the report on the last test case. */
    method Run(scriptFileName: string)
      requires Valid() && scriptFileDepth == -1
      modifies Repr()
      ensures Valid() && scriptFileDepth == -1
      ensures forall future: seq<Tick> :: old(View()) == Initial(future) ==> View() == Program(w, scriptFileName, future)
    {
      var _ := TestScriptProcess(scriptFileName);
      CleanupLastTestExecution();
    }
  }

  /** What the file comes to, from the state that ScriptOpen leaves. */
  lemma OpenedOrNot(w: World, name: string, s: State, depth: int, isOpen: bool, s': State)
    requires -1 <= depth < MAX_SCRIPT_FILE_DEPTH && isOpen == CanOpen(w, name, depth)
    requires s' == Log(s, if isOpen then Entered(name) else OpenFailed(name))
    ensures ProcessFile(w, name, s, depth) ==
            if isOpen then RunStatements(w, w.files[name], SUCCESS, s', depth + 1) else Result(s', FAILED)
  {
  }

  /** The statements to come when `statement` was read last and `unread` is what is left. */
  function Ahead(statement: string, unread: string): seq<string> {
    if statement == "" then [] else [statement] + ScriptOf(unread)
  }

  /** The state after a packet statement, put together from what PacketProcess did. */
  lemma ShowOutcome(b: State, o: Outcome, s: State)
    requires s == State(if o.fails then Failed else b.verdict, b.id, b.vars, o.dev,
                        b.trace + (if o.shown.Some? then [o.shown.value] else []))
    ensures s == After(b, o)
  {
    assert b.trace + [] == b.trace;
  }

  /** A bound on the rounds to come. */
  function ToGo(statement: string, unread: string): nat {
    |unread| + (if statement == "" then 0 else 1)
  }

  /** What the loop comes to from here. */
  function Pending(w: World, statement: string, unread: string, ret: int, s: State, depth: int): Result
    requires 0 <= depth < MAX_SCRIPT_FILE_DEPTH && '\0' !in statement
  {
    RunStatements(w, Ahead(statement, unread), ret, s, depth)
  }

  lemma ReadOn(text: string)
    ensures ScriptOf(text) == Ahead(FirstStatement(text).stmt, FirstStatement(text).rest)
    ensures '\0' !in FirstStatement(text).stmt
  {
    ReadNoNul(text, "", true);
  }

  lemma PendingStart(w: World, unread: string, s: State, depth: int)
    requires 0 <= depth < MAX_SCRIPT_FILE_DEPTH
    ensures '\0' !in FirstStatement(unread).stmt
    ensures RunStatements(w, ScriptOf(unread), SUCCESS, s, depth) ==
            Pending(w, FirstStatement(unread).stmt, FirstStatement(unread).rest, SUCCESS, s, depth)
  {
    ReadOn(unread);
  }

  lemma PendingStep(w: World, statement: string, unread: string, ret: int, s: State, depth: int)
    requires statement != "" && '\0' !in statement && 0 <= depth < MAX_SCRIPT_FILE_DEPTH
    ensures '\0' !in FirstStatement(unread).stmt
    ensures var r := Step(w, statement, s, depth);
            Pending(w, statement, unread, ret, s, depth) ==
            Pending(w, FirstStatement(unread).stmt, FirstStatement(unread).rest, r.ret, r.state, depth)
  {
    ReadOn(unread);
    assert Ahead(statement, unread)[1..] == ScriptOf(unread);
  }
}
