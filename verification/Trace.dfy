/** What a run of the program shows from outside, as a sequence of events, and what every
    such sequence must look like. The verdict, the test case, the variables and the packet
    received last are functions of the events alone; `Legal` says which event may follow
    which history. */
module Trace {
  import opened Text
  import opened Checksum
  import opened ScriptReader
  import opened Variables
  import opened Expansion
  import opened PacketSpec

  datatype Verdict = Failed | Passed | Skipped | Unknown

  datatype Event =
    | ExpandFailed(depth: int, raw: string)               // a statement with an undefined variable
    | Expanded(depth: int, raw: string, stmt: string)     // a statement read and expanded
    | SkippedOver(stmt: string)                           // ... and passed over
    | Ran(stmt: string, ret: int)                         // ... and executed
    | OpenFailed(name: string)
    | Entered(name: string)
    | Accepted(id: string)                                // a new test case
    | Started                                             // packets before any test case
    | Stored(name: string, value: string)
    | Sent(port: string, body: Body, packet: seq<byte>)
    | Matched(port: string, body: Body, packet: seq<byte>)
    | Mismatched(port: string, body: Body, packet: seq<byte>)
    | TimedOut(port: string)
    | Unexpected(port: string, packet: seq<byte>)         // found in a queue at the end of a test case
    | Reported(id: string, verdict: Verdict)

  const SUCCESS := 1

  predicate Halted(v: Verdict) {
    v == Failed || v == Skipped
  }

  // ---------- What a history amounts to ----------

  function NextVerdict(v: Verdict, e: Event): Verdict {
    match e
    case Accepted(_) => Passed
    case Started => Passed
    case ExpandFailed(_, _) => Skipped
    case Ran(_, ret) => if ret == SUCCESS then v else Skipped
    case Mismatched(_, _, _) => Failed
    case TimedOut(_) => Failed
    case Unexpected(_, _) => Failed
    case _ => v
  }

  function VerdictOf(t: seq<Event>): Verdict {
    if t == [] then Unknown else NextVerdict(VerdictOf(t[..|t| - 1]), t[|t| - 1])
  }

  function IdOf(t: seq<Event>): string {
    if t == [] then ""
    else if t[|t| - 1].Accepted? then t[|t| - 1].id
    else IdOf(t[..|t| - 1])
  }

  function NextVars(m: Vars, e: Event): Vars {
    if e.Stored? && Entry(e.name, e.value) then m[e.name := e.value] else m
  }

  function VarsOf(t: seq<Event>): Vars {
    if t == [] then map[] else NextVars(VarsOf(t[..|t| - 1]), t[|t| - 1])
  }

  /** The last packet matched in the current test case, and the cells it was matched with. */
  datatype LastMatch = NoMatch | Match(cells: seq<Cell>, packet: seq<byte>)

  function NextMatch(m: LastMatch, e: Event): LastMatch {
    match e
    case Accepted(_) => NoMatch
    case Started => NoMatch
    case Matched(_, body, packet) => Match(body.cells, packet)
    case _ => m
  }

  function MatchOf(t: seq<Event>): LastMatch {
    if t == [] then NoMatch else NextMatch(MatchOf(t[..|t| - 1]), t[|t| - 1])
  }

  predicate EndsReported(t: seq<Event>) {
    t != [] && t[|t| - 1].Reported?
  }

  // ---------- Which event may follow which history ----------

  function Min(a: nat, b: nat): nat {
    if a < b then a else b
  }

  /** The packet has the length of its statement and the bytes given there, and each `?k` in
      it is byte k of the packet matched last in the same test case, if one was. */
  predicate WellBuilt(m: LastMatch, body: Body, packet: seq<byte>) {
    && 14 <= |packet| == |body.cells|
    && forall j :: 0 <= j < |packet| ==> WellPlaced(m, body.cells[j], packet[j])
  }

  predicate WellPlaced(m: LastMatch, c: Cell, data: byte) {
    && !c.Any?
    && (c.Exact? ==> data == c.data)
    && (c.Copy? && m.Match? ==> c.k < Min(|m.cells|, |m.packet|) && data == m.packet[c.k])
  }

  const MAX_TESTCASE_ID_LEN := 11

  predicate IsIdChar(c: char) {
    IsAlnum(c) || c == '_'
  }

  /** The name GetTestCaseID accepts; it looks at the first 200 characters only. */
  function TestCaseId(statement: string): Option<string>
    requires statement != ""
  {
    var tokens := Tokens(statement[..Min(|statement|, MAX_SCRIPT_LINE_LEN)][1..]);
    if |tokens| == 1 && (forall i :: 0 <= i < |tokens[0]| ==> IsIdChar(tokens[0][i])) && |tokens[0]| < MAX_TESTCASE_ID_LEN
    then Some(tokens[0]) else None
  }

  predicate IsFileChar(c: char) {
    IsAlnum(c) || c == '.' || c == '_' || c == '/'
  }

  function IncludeName(statement: string): Option<string>
    requires statement != ""
  {
    var tokens := Tokens(statement[1..]);
    if |tokens| == 1 && forall i :: 0 <= i < |tokens[0]| ==> IsFileChar(tokens[0][i]) then Some(tokens[0]) else None
  }

  /** The event is what executing the packet statement comes to. */
  predicate Executes(stmt: string, e: Event)
    requires stmt != ""
  {
    match e
    case Sent(port, body, _) => stmt[0] == '>' && PortOf(stmt) == Some(port) && BodyOf(stmt) == Some(body)
    case Matched(port, body, _) => stmt[0] == '<' && PortOf(stmt) == Some(port) && BodyOf(stmt) == Some(body)
    case Mismatched(port, body, _) => stmt[0] == '<' && PortOf(stmt) == Some(port) && BodyOf(stmt) == Some(body)
    case TimedOut(port) => stmt[0] == '<' && PortOf(stmt) == Some(port)
    case _ => false
  }

  predicate Names(stmt: string, e: Event)
    requires stmt != ""
  {
    e.Accepted? && TestCaseId(stmt) == Some(e.id)
  }

  predicate Stores(stmt: string, e: Event)
    requires stmt != ""
  {
    e.Stored? && ParseAssignment(stmt[1..]) == Some(Assignment(e.name, e.value))
  }

  /** What must have happened right before a statement is said to have run with success. */
  predicate RanWell(syntaxOnly: bool, t: seq<Event>, stmt: string) {
    && stmt != "" && NoDollar(stmt[1..]) && stmt[0] in "#@<>$"
    && (stmt[0] == '#' ==> IncludeName(stmt).Some?)
    && (stmt[0] == '@' ==> t != [] && Names(stmt, t[|t| - 1]))
    && (stmt[0] == '$' ==> t != [] && Stores(stmt, t[|t| - 1]))
    && (!syntaxOnly && (stmt[0] == '<' || stmt[0] == '>') ==> t != [] && Executes(stmt, t[|t| - 1]))
  }

  /** The event `e` may come after the history `t`. */
  predicate Allowed(syntaxOnly: bool, t: seq<Event>, e: Event) {
    var v := VerdictOf(t);
    && (EndsReported(t) ==> e.Accepted?)
    && match e
       case ExpandFailed(_, raw) => raw != "" && Expand(raw, VarsOf(t)).None?
       case Expanded(_, raw, stmt) => raw != "" && Expand(raw, VarsOf(t)).Some? && Expand(raw, VarsOf(t)).value.text == stmt
       case SkippedOver(stmt) => Halted(v) && stmt != "" && stmt[0] != '@'
       case Ran(stmt, ret) => ret == SUCCESS ==> RanWell(syntaxOnly, t, stmt)
       case OpenFailed(_) => !Halted(v)
       case Entered(_) => !Halted(v)
       case Accepted(_) => v == Unknown || EndsReported(t)
       case Started => v == Unknown
       case Stored(name, value) => !Halted(v) && Entry(name, value)
       case Sent(_, body, packet) => v == Passed && !syntaxOnly && WellBuilt(MatchOf(t), body, packet)
       case Matched(_, body, packet) => v == Passed && !syntaxOnly && Accepts(body.cells, packet)
       case Mismatched(_, body, packet) => v == Passed && !syntaxOnly && !Accepts(body.cells, packet)
       case TimedOut(_) => v == Passed && !syntaxOnly
       case Unexpected(_, _) => v != Unknown
       case Reported(id, verdict) => v != Unknown && verdict == v && id == IdOf(t)
  }

  predicate Legal(syntaxOnly: bool, t: seq<Event>) {
    t == [] || (Legal(syntaxOnly, t[..|t| - 1]) && Allowed(syntaxOnly, t[..|t| - 1], t[|t| - 1]))
  }

  /** Everything about a history with one more event. */
  lemma Snoc(syntaxOnly: bool, t: seq<Event>, e: Event)
    ensures VerdictOf(t + [e]) == NextVerdict(VerdictOf(t), e)
    ensures IdOf(t + [e]) == if e.Accepted? then e.id else IdOf(t)
    ensures VarsOf(t + [e]) == NextVars(VarsOf(t), e)
    ensures MatchOf(t + [e]) == NextMatch(MatchOf(t), e)
    ensures EndsReported(t + [e]) == e.Reported?
    ensures Legal(syntaxOnly, t + [e]) <==> Legal(syntaxOnly, t) && Allowed(syntaxOnly, t, e)
  {
    assert (t + [e])[..|t|] == t;
  }

  // ---------- What follows for every legal history ----------

  lemma {:induction false} LegalPrefix(syntaxOnly: bool, t: seq<Event>, n: nat)
    requires Legal(syntaxOnly, t) && n <= |t|
    ensures Legal(syntaxOnly, t[..n])
    ensures n < |t| ==> Allowed(syntaxOnly, t[..n], t[n])
  {
    if n < |t| {
      LegalPrefix(syntaxOnly, t[..|t| - 1], n);
      assert t[..|t| - 1][..n] == t[..n];
    } else {
      assert t[..n] == t;
    }
  }

  predicate Opens(e: Event) {
    e.Accepted? || e.Started?
  }

  /** Nothing that speaks against a test case: each statement was expanded and none passed
      over, what ran returned success, what was received was accepted, and nothing that was
      not expected was found. */
  predicate Good(e: Event) {
    && !e.ExpandFailed? && !e.SkippedOver?
    && (e.Ran? ==> e.ret == SUCCESS)
    && !e.Mismatched? && !e.TimedOut? && !e.Unexpected?
    && !Opens(e) && !e.Reported?
  }

  /** Where the current test case began, or -1. */
  function Begin(t: seq<Event>): (j: int)
    ensures -1 <= j < |t| && (j >= 0 ==> Opens(t[j]))
  {
    if t == [] then -1
    else if Opens(t[|t| - 1]) then |t| - 1
    else Begin(t[..|t| - 1])
  }

  lemma PassedBefore(syntaxOnly: bool, t: seq<Event>, e: Event)
    requires Legal(syntaxOnly, t + [e]) && NextVerdict(VerdictOf(t), e) == Passed && !e.Reported? && !Opens(e)
    ensures Legal(syntaxOnly, t) && VerdictOf(t) == Passed && !EndsReported(t) && Good(e)
    ensures IdOf(t + [e]) == IdOf(t)
  {
    Snoc(syntaxOnly, t, e);
  }

  predicate GoodSince(t: seq<Event>, j: int) {
    forall k :: j < k < |t| && k >= 0 ==> Good(t[k])
  }

  lemma BeginSnoc(t: seq<Event>, e: Event)
    ensures Begin(t + [e]) == if Opens(e) then |t| else Begin(t)
  {
    assert (t + [e])[..|t|] == t;
  }

  lemma GoodSnoc(t: seq<Event>, e: Event, j: int)
    requires -1 <= j < |t|
    ensures GoodSince(t + [e], j) <==> GoodSince(t, j) && Good(e)
    ensures (t + [e])[..j + 1] == t[..j + 1]
  {
    var u := t + [e];
    assert u[|t|] == e && forall k :: 0 <= k < |t| ==> u[k] == t[k];
  }

  lemma {:induction false} PassedIsGood(syntaxOnly: bool, t: seq<Event>)
    requires Legal(syntaxOnly, t) && VerdictOf(t) == Passed && !EndsReported(t)
    ensures Begin(t) >= 0 && GoodSince(t, Begin(t))
    ensures IdOf(t) == IdOf(t[..Begin(t) + 1])
    decreases |t|
  {
    var front, e := t[..|t| - 1], t[|t| - 1];
    assert t == front + [e];
    BeginSnoc(front, e);
    if Opens(e) {
      assert t[..|t|] == t;
    } else {
      PassedBefore(syntaxOnly, front, e);
      PassedIsGood(syntaxOnly, front);
      GoodSnoc(front, e, Begin(front));
    }
  }

  function AcceptedIds(t: seq<Event>): seq<string> {
    if t == [] then []
    else AcceptedIds(t[..|t| - 1]) + (if t[|t| - 1].Accepted? then [t[|t| - 1].id] else [])
  }

  function ReportedIds(t: seq<Event>): seq<string> {
    if t == [] then []
    else ReportedIds(t[..|t| - 1]) + (if t[|t| - 1].Reported? then [t[|t| - 1].id] else [])
  }

  /** Something gave a verdict before the first test case was accepted. */
  predicate Preamble(t: seq<Event>) {
    t != [] &&
    (Preamble(t[..|t| - 1]) ||
     (AcceptedIds(t[..|t| - 1]) == [] && !t[|t| - 1].Accepted? && VerdictOf(t) != Unknown))
  }

  lemma {:induction false} IdleVerdict(syntaxOnly: bool, t: seq<Event>)
    requires Legal(syntaxOnly, t)
    ensures AcceptedIds(t) == [] ==> IdOf(t) == "" && (VerdictOf(t) != Unknown <==> Preamble(t))
    ensures AcceptedIds(t) != [] ==> VerdictOf(t) != Unknown
    decreases |t|
  {
    if t != [] {
      IdleVerdict(syntaxOnly, t[..|t| - 1]);
    }
  }

  lemma BeginGivesId(syntaxOnly: bool, t: seq<Event>, j: nat)
    requires Legal(syntaxOnly, t) && j < |t| && Opens(t[j])
    ensures IdOf(t[..j + 1]) == if t[j].Accepted? then t[j].id else ""
  {
    assert t[..j + 1] == t[..j] + [t[j]];
    Snoc(syntaxOnly, t[..j], t[j]);
    LegalPrefix(syntaxOnly, t, j);
    IdleVerdict(syntaxOnly, t[..j]);
  }

  /** Each statement that ran did what a successful run of it does, and each packet matched is
      one its statement accepts. */
  lemma EventsHold(syntaxOnly: bool, t: seq<Event>, k: nat)
    requires Legal(syntaxOnly, t) && k < |t|
    ensures t[k].Ran? && t[k].ret == SUCCESS ==> RanWell(syntaxOnly, t[..k], t[k].stmt)
    ensures t[k].Matched? ==> Accepts(t[k].body.cells, t[k].packet)
    ensures t[k].Mismatched? ==> !Accepts(t[k].body.cells, t[k].packet)
    ensures t[k].Sent? ==> WellBuilt(MatchOf(t[..k]), t[k].body, t[k].packet)
  {
    LegalPrefix(syntaxOnly, t, k);
  }

  /** Soundness of PASSED: when a test case is reported as passed, then since it was accepted
      (or since the first packet, for packets outside any test case) every statement was
      expanded, none was passed over, all ran with success, every packet read was one its
      statement accepts, and the queues held nothing else. */
  lemma PassedIsSound(syntaxOnly: bool, t: seq<Event>, i: nat)
    requires Legal(syntaxOnly, t) && i < |t| && t[i].Reported? && t[i].verdict == Passed
    ensures var j := Begin(t[..i]);
            && 0 <= j < i && Opens(t[j])
            && t[i].id == (if t[j].Accepted? then t[j].id else "")
            && (forall k :: j < k < i ==> Good(t[k]))
  {
    LegalPrefix(syntaxOnly, t, i);
    PassedIsGood(syntaxOnly, t[..i]);
    BeginGivesId(syntaxOnly, t[..i], Begin(t[..i]));
    GoodBefore(t, i, Begin(t[..i]));
  }

  lemma GoodBefore(t: seq<Event>, i: nat, j: int)
    requires i <= |t| && -1 <= j < i && GoodSince(t[..i], j)
    ensures j >= 0 ==> t[..i][j] == t[j] && t[..i][..j] == t[..j]
    ensures forall k :: j < k < i ==> Good(t[k])
  {
    forall k | j < k < i ensures Good(t[k]) { assert t[..i][k] == t[k]; }
  }

  /** And the other way round: as long as nothing has spoken against the test case since it
      began, its verdict is PASSED. */
  lemma {:induction false} GoodIsPassed(t: seq<Event>)
    requires Begin(t) >= 0 && GoodSince(t, Begin(t))
    ensures VerdictOf(t) == Passed
    decreases |t|
  {
    var front, e := t[..|t| - 1], t[|t| - 1];
    assert t == front + [e];
    BeginSnoc(front, e);
    if !Opens(e) {
      GoodSnoc(front, e, Begin(front));
      GoodIsPassed(front);
    }
  }

  /** What a test case that has been failed or skipped can still show before the next one is
      accepted: statements passed over or refused, includes coming to their end, packets left
      in the queues, its report. */
  predicate Idle(e: Event) {
    e.ExpandFailed? || e.Expanded? || e.SkippedOver? || e.Ran? || e.Unexpected? || e.Reported?
  }

  lemma HaltedStep(syntaxOnly: bool, t: seq<Event>, e: Event)
    requires Allowed(syntaxOnly, t, e) && Halted(VerdictOf(t)) && !e.Accepted?
    ensures Halted(NextVerdict(VerdictOf(t), e)) && Idle(e)
    ensures NextVars(VarsOf(t), e) == VarsOf(t)
  {
  }

  /** Monotonicity: from the moment the verdict is FAILED or SKIPPED until the next test case
      is accepted, it is never PASSED or UNKNOWN again, nothing is sent or received on behalf
      of the test case, no variable changes and no file is opened. */
  lemma {:induction false} HaltedStays(syntaxOnly: bool, t: seq<Event>, u: seq<Event>)
    requires Legal(syntaxOnly, t + u) && Halted(VerdictOf(t))
    requires forall e :: e in u ==> !e.Accepted?
    ensures HeldSince(t, t + u)
    ensures forall e :: e in u ==> Idle(e)
    decreases |u|
  {
    if u == [] {
      assert t + u == t;
    } else {
      var front, e := u[..|u| - 1], u[|u| - 1];
      assert u == front + [e] && t + u == (t + front) + [e];
      Snoc(syntaxOnly, t + front, e);
      HaltedStays(syntaxOnly, t, front);
      HaltedStep(syntaxOnly, t + front, e);
    }
  }

  /** The later history is halted and has the variables and the test case of the earlier. */
  predicate HeldSince(s: seq<Event>, t: seq<Event>) {
    Halted(VerdictOf(t)) && VarsOf(t) == VarsOf(s) && IdOf(t) == IdOf(s)
  }

  /** The verdict is UNKNOWN only in the beginning. */
  lemma {:induction false} UnknownIsFirst(t: seq<Event>, i: nat)
    requires i <= |t| && VerdictOf(t) == Unknown
    ensures VerdictOf(t[..i]) == Unknown
  {
    if i < |t| {
      UnknownIsFirst(t[..|t| - 1], i);
      assert t[..|t| - 1][..i] == t[..i];
    } else {
      assert t[..i] == t;
    }
  }

  // ---------- One report for each test case ----------

  /** The report that is still due. */
  function Due(t: seq<Event>): seq<string> {
    if VerdictOf(t) == Unknown || EndsReported(t) then [] else [IdOf(t)]
  }

  function Head(t: seq<Event>): seq<string> {
    if Preamble(t) then [""] else []
  }

  /** Exactly-once reporting, in order: the reports so far, and the one still due, are those of
      the accepted test cases one after the other, with an empty name in front exactly when
      something gave a verdict before the first of them. */
  lemma {:induction false} ReportsFollow(syntaxOnly: bool, t: seq<Event>)
    requires Legal(syntaxOnly, t)
    ensures Balanced(t)
    decreases |t|
  {
    if t != [] {
      var front, e := t[..|t| - 1], t[|t| - 1];
      assert t == front + [e];
      ReportsFollow(syntaxOnly, front);
      BalancedStep(syntaxOnly, front, e);
    }
  }

  lemma BalancedStep(syntaxOnly: bool, t: seq<Event>, e: Event)
    requires Balanced(t) && Legal(syntaxOnly, t) && Allowed(syntaxOnly, t, e)
    ensures Balanced(t + [e])
  {
    IdleVerdict(syntaxOnly, t);
    if e.Accepted? {
      AcceptBalances(t, e);
    } else if e.Reported? {
      ReportBalances(t, e);
    } else {
      OtherBalances(t, e);
    }
  }

  predicate Balanced(t: seq<Event>) {
    ReportedIds(t) + Due(t) == Head(t) + AcceptedIds(t)
  }

  lemma IdsSnoc(t: seq<Event>, e: Event)
    ensures AcceptedIds(t + [e]) == AcceptedIds(t) + (if e.Accepted? then [e.id] else [])
    ensures ReportedIds(t + [e]) == ReportedIds(t) + (if e.Reported? then [e.id] else [])
    ensures Preamble(t + [e]) <==>
            Preamble(t) || (AcceptedIds(t) == [] && !e.Accepted? && NextVerdict(VerdictOf(t), e) != Unknown)
    ensures VerdictOf(t + [e]) == NextVerdict(VerdictOf(t), e)
    ensures IdOf(t + [e]) == if e.Accepted? then e.id else IdOf(t)
    ensures EndsReported(t + [e]) == e.Reported?
  {
    assert (t + [e])[..|t|] == t;
  }

  lemma AcceptBalances(t: seq<Event>, e: Event)
    requires e.Accepted? && Balanced(t) && Due(t) == []
    ensures Balanced(t + [e])
  {
    IdsSnoc(t, e);
    assert ReportedIds(t) + [] + [e.id] == Head(t) + (AcceptedIds(t) + [e.id]);
  }

  lemma ReportBalances(t: seq<Event>, e: Event)
    requires e.Reported? && Balanced(t) && Due(t) == [e.id]
    requires AcceptedIds(t) == [] ==> (VerdictOf(t) != Unknown <==> Preamble(t))
    ensures Balanced(t + [e])
  {
    IdsSnoc(t, e);
    assert ReportedIds(t) + [e.id] + [] == Head(t) + AcceptedIds(t);
  }

  lemma FirstVerdictBalances(t: seq<Event>, e: Event)
    requires !e.Accepted? && !e.Reported? && IdOf(t) == ""
    requires AcceptedIds(t) == [] && ReportedIds(t) == []
    requires VerdictOf(t) == Unknown && NextVerdict(VerdictOf(t), e) != Unknown
    ensures Balanced(t + [e])
  {
    IdsSnoc(t, e);
  }

  lemma SteadyBalances(t: seq<Event>, e: Event)
    requires !e.Accepted? && !e.Reported? && Balanced(t) && !EndsReported(t)
    requires VerdictOf(t) == Unknown <==> NextVerdict(VerdictOf(t), e) == Unknown
    requires AcceptedIds(t) == [] && VerdictOf(t) != Unknown ==> Preamble(t)
    ensures Balanced(t + [e])
  {
    IdsSnoc(t, e);
    assert Head(t + [e]) == Head(t);
    assert Due(t + [e]) == Due(t);
    assert AcceptedIds(t + [e]) == AcceptedIds(t) && ReportedIds(t + [e]) == ReportedIds(t);
  }

  lemma OtherBalances(t: seq<Event>, e: Event)
    requires !e.Accepted? && !e.Reported? && Balanced(t) && !EndsReported(t)
    requires AcceptedIds(t) == [] ==> IdOf(t) == "" && (VerdictOf(t) != Unknown <==> Preamble(t))
    requires VerdictOf(t) != Unknown ==> NextVerdict(VerdictOf(t), e) != Unknown
    requires AcceptedIds(t) != [] ==> VerdictOf(t) != Unknown
    ensures Balanced(t + [e])
  {
    if VerdictOf(t) == Unknown && NextVerdict(VerdictOf(t), e) != Unknown {
      assert ReportedIds(t) == ReportedIds(t) + Due(t) == Head(t) + AcceptedIds(t) == [];
      FirstVerdictBalances(t, e);
    } else {
      SteadyBalances(t, e);
    }
  }
}
