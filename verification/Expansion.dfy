/** scripts.c, ScriptSubstituteVariables: replacing `$name` by the value of the variable. */
module Expansion {
  import opened Text
  import opened Variables

  // ---------- One pass over the text after the first character ----------

  /** The name strtok finds in the text after a `$`. */
  function NameIn(after: string): string {
    var word := after[BlankLen(after)..];
    word[..WordLen(word)]
  }

  datatype Span = Span(lo: nat, hi: nat)

  /** Where the pass goes on. The program skips the length of the name and one more from the
      `$`, and strtok has put a NUL behind the name: a name that follows the `$` directly
      leaves all that comes after its space, any other only what lies in front of that NUL. */
  function RemainderSpan(after: string): (r: Span)
    ensures r.lo <= r.hi <= |after|
  {
    var blank, n := BlankLen(after), |NameIn(after)|;
    if n > 0 && blank > 0 then Span(n + 1, blank + n)
    else if blank == 0 && n < |after| then Span(n + 1, |after|)
    else Span(|after|, |after|)
  }

  function Remainder(after: string): string {
    after[RemainderSpan(after).lo..RemainderSpan(after).hi]
  }

  /** The first variable of a text: what stands before it, its name, and what the pass goes
      on with. */
  datatype Found = NoVar | FirstVar(lit: string, name: string, rest: string)

  function Find(text: string): (r: Found)
    ensures r.FirstVar? ==> |r.rest| < |text|
  {
    var d := IndexOf(text, '$');
    if d == |text| then NoVar
    else FirstVar(text[..d], NameIn(text[d + 1..]), Remainder(text[d + 1..]))
  }

  lemma FindLacks(text: string, c: char)
    requires c !in text && Find(text).FirstVar?
    ensures c !in Find(text).lit && c !in Find(text).rest
  {
    RemainderLacks(text[IndexOf(text, '$') + 1..], c);
  }

  lemma FindNone(text: string)
    ensures Find(text).NoVar? <==> NoDollar(text)
    ensures Find(text).FirstVar? ==> NoDollar(Find(text).lit)
  {
    if IndexOf(text, '$') < |text| {
      assert text[IndexOf(text, '$')] in text;
    }
  }

  lemma RemainderLacks(after: string, c: char)
    requires c !in after
    ensures c !in Remainder(after)
  {
  }

  datatype Rewritten = Rewritten(text: string, count: nat)

  function OnePass(text: string, vars: map<string, string>): Option<Rewritten>
    decreases |text|
  {
    match Find(text)
    case NoVar => Some(Rewritten(text, 0))
    case FirstVar(lit, name, rest) =>
      if name == "" || name !in vars then None
      else Contribute(lit, vars[name], OnePass(rest, vars))
  }

  /** The text before a variable and its value, put in front of what the pass makes of the rest. */
  function Contribute(lit: string, value: string, more: Option<Rewritten>): Option<Rewritten> {
    if more.None? then None
    else Some(Rewritten(lit + (value + (" " + more.value.text)), more.value.count + 1))
  }

  lemma {:induction false} OnePassClean(text: string, vars: Vars)
    requires OnePass(text, vars).Some?
    ensures NoDollar(OnePass(text, vars).value.text)
    ensures OnePass(text, vars).value.count == 0 <==> NoDollar(text)
    ensures NoDollar(text) ==> OnePass(text, vars) == Some(Rewritten(text, 0))
    decreases |text|
  {
    FindNone(text);
    var f := Find(text);
    if f.FirstVar? {
      OnePassClean(f.rest, vars);
      assert Entry(f.name, vars[f.name]);
    }
  }

  lemma {:induction false} OnePassNoNul(text: string, vars: Vars)
    requires OnePass(text, vars).Some? && '\0' !in text
    ensures '\0' !in OnePass(text, vars).value.text
    decreases |text|
  {
    var f := Find(text);
    if f.FirstVar? {
      FindLacks(text, '\0');
      OnePassNoNul(f.rest, vars);
      assert Entry(f.name, vars[f.name]);
    }
  }

  // ---------- The whole expansion ----------

  /** The statement after substitution and the number of substitutions of the first pass,
      which is what the program returns; None stands for -1. The rescan ends at once because
      no stored value holds a `$`. */
  function Expand(statement: string, vars: Vars): Option<Rewritten>
    requires statement != ""
    decreases !NoDollar(statement[1..])
  {
    var pass := OnePass(statement[1..], vars);
    if pass.None? then None
    else
      OnePassClean(statement[1..], vars);
      if pass.value.count == 0 then Some(Rewritten(statement, 0))
      else
        var line := [statement[0]] + pass.value.text;
        assert line[1..] == pass.value.text;
        var again := Expand(line, vars);
        if again.None? then None else Some(Rewritten(again.value.text, pass.value.count))
  }

  /** One pass decides everything: the rescan changes nothing and cannot fail. */
  lemma ExpandIsOnePass(statement: string, vars: Vars)
    requires statement != ""
    ensures Expand(statement, vars) ==
            match OnePass(statement[1..], vars)
            case None => None
            case Some(r) => Some(Rewritten([statement[0]] + r.text, r.count))
  {
    var pass := OnePass(statement[1..], vars);
    if pass.Some? {
      OnePassClean(statement[1..], vars);
      var line := [statement[0]] + pass.value.text;
      assert line[1..] == pass.value.text;
      assert statement == [statement[0]] + statement[1..];
      OnePassClean(line[1..], vars);
    }
  }

  /** After a successful expansion no `$` is left past the first character, the command
      character is kept, and expanding once more changes nothing. */
  lemma ExpandIsFinal(statement: string, vars: Vars)
    requires statement != "" && Expand(statement, vars).Some?
    ensures var r := Expand(statement, vars).value;
            && r.text != "" && r.text[0] == statement[0]
            && NoDollar(r.text[1..])
            && ('\0' !in statement ==> '\0' !in r.text)
            && (r.count == 0 <==> NoDollar(statement[1..]))
            && Expand(r.text, vars) == Some(Rewritten(r.text, 0))
  {
    ExpandIsOnePass(statement, vars);
    OnePassClean(statement[1..], vars);
    if '\0' !in statement {
      OnePassNoNul(statement[1..], vars);
    }
    var pass := OnePass(statement[1..], vars).value;
    var line := [statement[0]] + pass.text;
    assert line[1..] == pass.text;
    OnePassClean(line[1..], vars);
  }

  // ---------- Templates: what a text with variables means ----------

  /** Text without `$`, then either the end, a variable that ends the text, or a variable
      with one space behind it and more. */
  datatype Template =
    | Last(lit: string)
    | LastVar(lit: string, name: string)
    | Var(lit: string, name: string, rest: Template)
  {
    predicate Valid() {
      && NoDollar(lit)
      && (Last? || IsWord(name))
      && (Var? ==> rest.Valid())
    }

    function Names(): set<string> {
      match this
      case Last(_) => {}
      case LastVar(_, n) => {n}
      case Var(_, n, r) => {n} + r.Names()
    }

    function Count(): nat {
      match this
      case Last(_) => 0
      case LastVar(_, _) => 1
      case Var(_, _, r) => 1 + r.Count()
    }

    function Source(): string {
      match this
      case Last(l) => l
      case LastVar(l, n) => l + "$" + n
      case Var(l, n, r) => l + "$" + (n + (" " + r.Source()))
    }

    /** Every variable gives its value and one space. */
    function Value(vars: map<string, string>): string
      requires Names() <= vars.Keys
    {
      match this
      case Last(l) => l
      case LastVar(l, n) => l + (vars[n] + (" " + ""))
      case Var(l, n, r) => l + (vars[n] + (" " + r.Value(vars)))
    }
  }

  lemma FindIs(lit: string, after: string)
    requires NoDollar(lit)
    ensures Find(lit + "$" + after) == FirstVar(lit, NameIn(after), Remainder(after))
  {
    var text := lit + ['$'] + after;
    IndexOfFirst(lit, '$', after);
    assert text[..|lit|] == lit && text[|lit| + 1..] == after;
  }

  lemma NameThenSpace(name: string, more: string)
    requires IsWord(name)
    ensures NameIn(name + (" " + more)) == name
    ensures Remainder(name + (" " + more)) == more
  {
    var after := name + (" " + more);
    WordLenOf(name, " " + more);
    assert after[0] == name[0];
    assert after[0..] == after && after[..|name|] == name;
    assert after[|name| + 1..] == more;
  }

  lemma NameAtEnd(name: string)
    requires IsWord(name)
    ensures NameIn(name) == name
    ensures Remainder(name) == ""
  {
    WordLenOf(name, "");
    assert name + "" == name && name[0..] == name;
  }

  lemma {:induction false} PassOfTemplate(t: Template, vars: map<string, string>)
    requires t.Valid()
    ensures OnePass(t.Source(), vars) ==
            if t.Names() <= vars.Keys then Some(Rewritten(t.Value(vars), t.Count())) else None
    decreases t
  {
    match t
    case Last(l) =>
      FindNone(l);
    case LastVar(l, n) =>
      FindIs(l, n);
      NameAtEnd(n);
      FindNone("");
    case Var(l, n, r) =>
      FindIs(l, n + (" " + r.Source()));
      NameThenSpace(n, r.Source());
      PassOfTemplate(r, vars);
  }

  /** Expansion is the left-to-right rewrite: it fails exactly when some variable is not
      defined, keeps all other text, and puts each value and a space for each variable. */
  lemma ExpandTemplate(c: char, t: Template, vars: Vars)
    requires t.Valid()
    ensures Expand([c] + t.Source(), vars) ==
            if t.Names() <= vars.Keys then Some(Rewritten([c] + t.Value(vars), t.Count())) else None
  {
    assert ([c] + t.Source())[1..] == t.Source();
    ExpandIsOnePass([c] + t.Source(), vars);
    PassOfTemplate(t, vars);
  }

  /** Every `$` the pass meets has a name right behind it. */
  predicate NamesDirect(text: string)
    decreases |text|
  {
    match Find(text)
    case NoVar => true
    case FirstVar(lit, name, rest) => name != "" && text[|lit| + 1] != ' ' && NamesDirect(rest)
  }

  function TemplateOf(text: string): (t: Template)
    requires NamesDirect(text)
    decreases |text|
  {
    match Find(text)
    case NoVar => Last(text)
    case FirstVar(lit, name, rest) =>
      if |lit| + 1 + |name| == |text| then LastVar(lit, name) else Var(lit, name, TemplateOf(rest))
  }

  lemma FoundParts(text: string)
    requires Find(text).FirstVar? && Find(text).name != "" && text[|Find(text).lit| + 1] != ' '
    ensures var f := Find(text);
            && IsWord(f.name)
            && (|f.lit| + 1 + |f.name| == |text| ==> text == f.lit + "$" + f.name)
            && (|f.lit| + 1 + |f.name| != |text| ==> text == f.lit + "$" + (f.name + (" " + f.rest)))
  {
    var d := IndexOf(text, '$');
    var after := text[d + 1..];
    assert after[0..] == after;
    assert text == text[..d] + "$" + after;
    AfterParts(after);
  }

  lemma AfterParts(after: string)
    requires after != "" && after[0] != ' '
    ensures var name := NameIn(after);
            after == if |name| == |after| then name else name + (" " + Remainder(after))
  {
    assert after[0..] == after;
  }

  /** Templates leave no text out: each text whose names are direct is one of them. */
  lemma {:induction false} TemplateOfText(text: string)
    requires NamesDirect(text)
    ensures TemplateOf(text).Valid() && TemplateOf(text).Source() == text
    decreases |text|
  {
    FindNone(text);
    var f := Find(text);
    if f.FirstVar? {
      FoundParts(text);
      if |f.lit| + 1 + |f.name| != |text| {
        TemplateOfText(f.rest);
      }
    }
  }

  /** When nothing but spaces follows a `$`, the expansion fails. */
  lemma NoNameFails(lit: string, blanks: string, vars: map<string, string>)
    requires NoDollar(lit) && forall i :: 0 <= i < |blanks| ==> blanks[i] == ' '
    ensures OnePass(lit + "$" + blanks, vars) == None
  {
    FindIs(lit, blanks);
    assert BlankLen(blanks) == |blanks|;
  }

  lemma {:induction false} ValueFrame(t: Template, vars: map<string, string>, name: string, value: string)
    requires t.Names() <= vars.Keys && name !in t.Names()
    ensures t.Value(vars[name := value]) == t.Value(vars)
    decreases t
  {
    if t.Var? {
      ValueFrame(t.rest, vars, name, value);
    }
  }

  /** `$b=$a` binds b to the value a has then: setting a again does not change what any text
      that names b but not a stands for. */
  lemma EagerBinding(vars: Vars, a: string, b: string, later: string, t: Template)
    requires IsWord(a) && a in vars
    requires Trimmed(b) && Storable(b) && '=' !in b && b != a && HasRoom(vars, b)
    requires t.Names() <= vars.Keys + {b} && a !in t.Names()
    ensures Expand("$" + (b + "=" + "$" + a), vars) == Some(Rewritten("$" + (b + "=" + (vars[a] + " ")), 1))
    ensures Storable(b + "=" + (vars[a] + " "))
    ensures Store(vars, b + "=" + (vars[a] + " ")) == Some(vars[b := vars[a]])
    ensures t.Value(vars[b := vars[a]][a := later]) == t.Value(vars[b := vars[a]])
  {
    assert Entry(a, vars[a]);
    ExpandLastVar('$', b + "=", a, vars);
    StoreSpaced(vars, b, vars[a]);
    ValueFrame(t, vars[b := vars[a]], a, later);
  }

  lemma ExpandLastVar(c: char, lit: string, name: string, vars: Vars)
    requires NoDollar(lit) && IsWord(name) && name in vars
    ensures Expand([c] + (lit + "$" + name), vars) == Some(Rewritten([c] + (lit + (vars[name] + " ")), 1))
  {
    ExpandTemplate(c, LastVar(lit, name), vars);
    assert vars[name] + (" " + "") == vars[name] + " ";
  }

  lemma StoreSpaced(vars: Vars, b: string, value: string)
    requires Trimmed(b) && Storable(b) && '=' !in b && HasRoom(vars, b)
    requires Trimmed(value) && Storable(value)
    ensures Storable(b + "=" + (value + " "))
    ensures Store(vars, b + "=" + (value + " ")) == Some(vars[b := value])
  {
    TrimOfSpaced(value);
    TrimOfTrimmed(b);
    AssignmentLayout(b, b, value + " ", value);
    assert Storable(value + " ");
  }

  // ---------- The loop of the program ----------

  /** `done` and `n` are what a pass that gives `whole` has made before a rest that gives `more`. */
  predicate Continues(whole: Option<Rewritten>, done: string, n: nat, more: Option<Rewritten>) {
    match more
    case None => whole == None
    case Some(r) => whole == Some(Rewritten(done + r.text, n + r.count))
  }

  lemma PassStart(whole: Option<Rewritten>)
    ensures Continues(whole, "", 0, whole)
  {
    if whole.Some? {
      assert "" + whole.value.text == whole.value.text;
    }
  }

  lemma PassStep(whole: Option<Rewritten>, done: string, n: nat, lit: string, value: string, more: Option<Rewritten>)
    requires Continues(whole, done, n, Contribute(lit, value, more))
    ensures Continues(whole, done + lit + value + " ", n + 1, more)
  {
    if more.Some? {
      Append4(done, lit, value, " ", more.value.text);
    }
  }

  lemma Append4(a: string, b: string, c: string, d: string, e: string)
    ensures a + (b + (c + (d + e))) == a + b + c + d + e
  {
  }

  /** The string at `p` when a NUL stands at `end`. */
  function StringAt(line: string, p: nat, end: nat): string
    requires end <= |line|
  {
    if p <= end then line[p..end] else ""
  }

  /** The pointers stand behind the variable found in the string between inPtr and end. */
  predicate Behind(line: string, inPtr: nat, end: nat, found: Found, inPtr': nat, end': nat)
    requires found.FirstVar?
  {
    && inPtr < inPtr' <= end' + 1 <= end + 1
    && end' <= |line|
    && (found.name != "" ==> StringAt(line, inPtr', end') == found.rest)
  }

  /** strchr, strtok and the step over the name, for the string between inPtr and end. The
      new end is the NUL that strtok puts behind the name, where the program can see it. */
  method NextVariable(line: string, inPtr: nat, end: nat) returns (found: Found, inPtr': nat, end': nat)
    requires inPtr <= end + 1 && end <= |line|
    ensures found == Find(StringAt(line, inPtr, end))
    ensures found.FirstVar? ==> Behind(line, inPtr, end, found, inPtr', end')
  {
    var text := StringAt(line, inPtr, end);
    var d := IndexOf(text, '$');
    if d == |text| {
      return NoVar, inPtr, end;
    }
    var varPtr := inPtr + d + 1;              // behind the '$'
    var after := line[varPtr..end];
    assert after == text[d + 1..];
    inPtr', end' := StepOver(line, varPtr, end);
    found := FirstVar(text[..d], NameIn(after), Remainder(after));
  }

  method StepOver(line: string, varPtr: nat, end: nat) returns (inPtr: nat, end': nat)
    requires varPtr <= end <= |line|
    ensures varPtr < inPtr <= end' + 1 <= end + 1
    ensures NameIn(line[varPtr..end]) != "" ==> StringAt(line, inPtr, end') == Remainder(line[varPtr..end])
  {
    var after := line[varPtr..end];
    var blank, n := BlankLen(after), |NameIn(after)|;
    inPtr := varPtr + (n + 1);
    end' := if blank > 0 then varPtr + blank + n else end;
    StringAtSpan(line, varPtr, end, RemainderSpan(after));
  }

  lemma StringAtSpan(line: string, varPtr: nat, end: nat, span: Span)
    requires varPtr <= end <= |line| && span.lo <= span.hi <= end - varPtr
    ensures StringAt(line, varPtr + span.lo, varPtr + span.hi) == line[varPtr..end][span.lo..span.hi]
    ensures span.lo == span.hi ==> line[varPtr..end][span.lo..span.hi] == ""
  {
    SubSlice(line, varPtr, end, span.lo, span.hi);
  }

  /** One pass: rewrites the text after the command character, following the two pointers. */
  method SubstituteOnce(iline: string, table: VarTable) returns (count: int, oline: string)
    requires iline != "" && table.Valid()
    ensures match OnePass(iline[1..], table.Map())
            case None => count == -1
            case Some(r) => count == r.count && oline == [iline[0]] + r.text
  {
    ghost var vars := table.Map();
    ghost var whole := OnePass(iline[1..], vars);
    var inPtr, end := 1, |iline|;
    count := 0;
    var out := "";                                 // what follows the command character
    PassStart(whole);
    var rest := StringAt(iline, inPtr, end);
    assert rest == iline[1..];
    var found, inPtr', end' := NextVariable(iline, inPtr, end);
    while found.FirstVar?
      invariant 1 <= inPtr <= end + 1 && end <= |iline| && count >= 0
      invariant rest == StringAt(iline, inPtr, end) && found == Find(rest)
      invariant found.FirstVar? ==> Behind(iline, inPtr, end, found, inPtr', end')
      invariant Continues(whole, out, count, OnePass(rest, vars))
      decreases end + 1 - inPtr
    {
      if found.name == "" {
        return -1, out;
      }
      var varValue := table.VariableGetValue(found.name);
      if varValue.None? {
        return -1, out;
      }
      PassStep(whole, out, count, found.lit, varValue.value, OnePass(found.rest, vars));
      out := out + found.lit + varValue.value + " ";
      count := count + 1;
      inPtr, end := inPtr', end';
      rest := StringAt(iline, inPtr, end);
      found, inPtr', end' := NextVariable(iline, inPtr, end);
    }
    oline := [iline[0]] + (out + rest);
  }

  method ScriptSubstituteVariables(iline: string, table: VarTable) returns (count: int, line: string)
    requires iline != "" && table.Valid()
    ensures match Expand(iline, table.Map())
            case None => count == -1
            case Some(r) => count == r.count && line == r.text
    decreases !NoDollar(iline[1..])
  {
    var oline;
    count, oline := SubstituteOnce(iline, table);
    if count < 0 {
      return -1, oline;
    }
    OnePassClean(iline[1..], table.Map());
    if count == 0 {
      return 0, iline;
    }
    var retVal;
    assert oline[1..] == OnePass(iline[1..], table.Map()).value.text;
    retVal, line := ScriptSubstituteVariables(oline, table);
    if retVal < 0 {
      count := -1;
    }
  }
}
