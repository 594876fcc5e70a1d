/** Variables with a space between the `$` and the name: what the expander makes of them in the
    statements that the lexer delivers. */
module SpacedNames {
  import opened Text
  import opened ScriptReader
  import opened ScriptLayout
  import opened Variables
  import opened Expansion

  // ---------- Text in front ----------

  /** A variable whose name follows its `$` directly, and the text in front of it. */
  datatype Direct = Direct(lit: string, name: string)

  predicate AllDirect(ps: seq<Direct>) {
    forall i :: 0 <= i < |ps| ==> NoDollar(ps[i].lit) && IsWord(ps[i].name)
  }

  predicate AllDefined(ps: seq<Direct>, vars: map<string, string>) {
    forall i :: 0 <= i < |ps| ==> ps[i].name in vars
  }

  function Front(ps: seq<Direct>): string {
    if ps == [] then "" else ps[0].lit + "$" + (ps[0].name + (" " + Front(ps[1..])))
  }

  /** What a pass puts in front of what it makes of the rest. */
  function AddFront(ps: seq<Direct>, vars: map<string, string>, more: Option<Rewritten>): Option<Rewritten>
    requires AllDefined(ps, vars)
  {
    if ps == [] then more else Contribute(ps[0].lit, vars[ps[0].name], AddFront(ps[1..], vars, more))
  }

  lemma BehindFront(a: string, b: string, c: string, d: string)
    ensures a + "$" + (b + (" " + c)) + d == a + "$" + (b + (" " + (c + d)))
  {
  }

  lemma {:induction false} PassAfter(ps: seq<Direct>, tail: string, vars: map<string, string>)
    requires AllDirect(ps) && AllDefined(ps, vars)
    ensures OnePass(Front(ps) + tail, vars) == AddFront(ps, vars, OnePass(tail, vars))
    decreases |ps|
  {
    if ps == [] {
      assert "" + tail == tail;
    } else {
      var p, rest := ps[0], Front(ps[1..]) + tail;
      BehindFront(p.lit, p.name, Front(ps[1..]), tail);
      FindIs(p.lit, p.name + (" " + rest));
      NameThenSpace(p.name, rest);
      PassAfter(ps[1..], tail, vars);
    }
  }

  lemma ContributeInjective(lit: string, value: string, a: Option<Rewritten>, b: Option<Rewritten>)
    requires Contribute(lit, value, a) == Contribute(lit, value, b)
    ensures a == b
  {
    if a.Some? && b.Some? {
      var x, y := lit + (value + (" " + a.value.text)), lit + (value + (" " + b.value.text));
      assert x[|lit| + |value| + 1..] == a.value.text && y[|lit| + |value| + 1..] == b.value.text;
    }
  }

  lemma {:induction false} AddFrontInjective(ps: seq<Direct>, vars: map<string, string>, a: Option<Rewritten>, b: Option<Rewritten>)
    requires AllDefined(ps, vars) && AddFront(ps, vars, a) == AddFront(ps, vars, b)
    ensures a == b
    decreases |ps|
  {
    if ps != [] {
      ContributeInjective(ps[0].lit, vars[ps[0].name], AddFront(ps[1..], vars, a), AddFront(ps[1..], vars, b));
      AddFrontInjective(ps[1..], vars, a, b);
    }
  }

  // ---------- A space behind the `$` ----------

  /** What may stand behind a name. */
  predicate EndsName(more: string) {
    more == "" || more[0] == ' '
  }

  lemma SpacedParts(name: string, more: string)
    requires IsWord(name) && EndsName(more)
    ensures NameIn(" " + (name + more)) == name
    ensures Remainder(" " + (name + more)) == ""
  {
    var after := " " + (name + more);
    WordLenOf(name, more);
    assert after[1..] == name + more && (name + more)[0] == name[0];
    assert BlankLen(after) == 1;
    assert (name + more)[..|name|] == name;
  }

  /** All that stands behind the name is lost. */
  lemma SpacedEnds(lit: string, name: string, more: string, vars: map<string, string>)
    requires NoDollar(lit) && IsWord(name) && name in vars && EndsName(more)
    ensures OnePass(lit + "$" + (" " + (name + more)), vars) == Some(Rewritten(lit + (vars[name] + (" " + "")), 1))
  {
    FindIs(lit, " " + (name + more));
    SpacedParts(name, more);
    FindNone("");
  }

  lemma DirectGoesOn(lit: string, name: string, more: string, vars: map<string, string>)
    requires NoDollar(lit) && IsWord(name) && name in vars && EndsName(more)
    ensures OnePass(lit + "$" + (name + more), vars) ==
            Contribute(lit, vars[name], OnePass(if more == "" then "" else more[1..], vars))
  {
    FindIs(lit, name + more);
    if more == "" {
      assert name + more == name;
      NameAtEnd(name);
      FindNone("");
    } else {
      assert more == " " + more[1..];
      NameThenSpace(name, more[1..]);
    }
  }

  lemma {:induction false} PassKeepsText(text: string, vars: map<string, string>)
    ensures OnePass(text, vars) == Some(Rewritten("", 0)) <==> text == ""
  {
    FindNone(text);
  }

  /** A space between a `$` and its name, wherever the variable stands in the text, makes no
      difference if and only if nothing but the end, or one space and the end, follows the name. */
  lemma SpaceHarmless(ps: seq<Direct>, lit: string, name: string, more: string, vars: map<string, string>)
    requires AllDirect(ps) && AllDefined(ps, vars)
    requires NoDollar(lit) && IsWord(name) && name in vars && EndsName(more)
    ensures OnePass(Front(ps) + (lit + "$" + (" " + (name + more))), vars) ==
            OnePass(Front(ps) + (lit + "$" + (name + more)), vars)
            <==> |more| <= 1
  {
    hide OnePass, Front, AddFront;
    var spaced, direct := lit + "$" + (" " + (name + more)), lit + "$" + (name + more);
    var rest := if more == "" then "" else more[1..];
    PassAfter(ps, spaced, vars);
    PassAfter(ps, direct, vars);
    SpacedEnds(lit, name, more, vars);
    DirectGoesOn(lit, name, more, vars);
    PassKeepsText(rest, vars);
    PassKeepsText("", vars);
    var ended := Some(Rewritten("", 0));
    assert Contribute(lit, vars[name], ended) == OnePass(spaced, vars);
    if OnePass(Front(ps) + spaced, vars) == OnePass(Front(ps) + direct, vars) {
      AddFrontInjective(ps, vars, OnePass(spaced, vars), OnePass(direct, vars));
      ContributeInjective(lit, vars[name], ended, OnePass(rest, vars));
    }
  }

  // ---------- The statements of the lexer ----------

  predicate AtMostOneBlank(text: string) {
    forall i :: 0 <= i < |text| && text[i] == '$' ==> BlankLen(text[i + 1..]) <= 1
  }

  lemma NormalBlanks(s: string)
    requires NormalForm(s)
    ensures AtMostOneBlank(s)
  {
    forall i | 0 <= i < |s| && s[i] == '$' ensures BlankLen(s[i + 1..]) <= 1 {
      var after := s[i + 1..];
      if BlankLen(after) > 1 {
        assert after[0] == ' ' && after[1] == ' ';
        assert DoubleSpace(s, i + 2);
      }
    }
  }

  lemma BlanksOfSuffix(text: string, n: nat)
    requires AtMostOneBlank(text) && n <= |text|
    ensures AtMostOneBlank(text[n..])
  {
    forall i | 0 <= i < |text[n..]| && text[n..][i] == '$' ensures BlankLen(text[n..][i + 1..]) <= 1 {
      assert text[n..][i + 1..] == text[n + i + 1..];
    }
  }

  datatype Spaced = Spaced(front: seq<Direct>, lit: string, name: string, more: string) {
    ghost predicate Valid(vars: map<string, string>) {
      && AllDirect(front) && AllDefined(front, vars)
      && NoDollar(lit) && IsWord(name) && name in vars && EndsName(more)
    }

    function Source(): string {
      Front(front) + (lit + "$" + (" " + (name + more)))
    }
  }

  lemma AfterSpaced(after: string)
    requires after != "" && after[0] == ' ' && BlankLen(after) <= 1 && NameIn(after) != ""
    ensures 1 + |NameIn(after)| <= |after| && IsWord(NameIn(after)) && EndsName(after[1 + |NameIn(after)|..])
    ensures after == " " + (NameIn(after) + after[1 + |NameIn(after)|..])
  {
    var word := after[1..];
    assert BlankLen(after) == 1;
    assert NameIn(after) == word[..WordLen(word)];
  }

  /** The first variable of the text has a space behind its `$`. */
  lemma FirstSpaced(text: string, d: nat, vars: map<string, string>) returns (sp: Spaced)
    requires d < |text| && d == IndexOf(text, '$') && NameIn(text[d + 1..]) in vars && NameIn(text[d + 1..]) != ""
    requires d + 1 < |text| && text[d + 1] == ' ' && BlankLen(text[d + 1..]) <= 1
    ensures sp.Valid(vars) && sp.front == [] && sp.Source() == text
  {
    var after := text[d + 1..];
    AfterSpaced(after);
    sp := Spaced([], text[..d], NameIn(after), after[1 + |NameIn(after)|..]);
    DollarParts(text, d);
  }

  lemma DollarParts(text: string, d: nat)
    requires d < |text| && d == IndexOf(text, '$')
    ensures NoDollar(text[..d]) && text == "" + (text[..d] + "$" + text[d + 1..])
  {
    CutAt(text, d);
    NothingInFront(text);
  }

  lemma CutAt(text: string, d: nat)
    requires d < |text| && text[d] == '$'
    ensures text == text[..d] + "$" + text[d + 1..]
  {
    var whole := text[..d] + "$" + text[d + 1..];
    assert |whole| == |text| && forall k :: 0 <= k < |text| ==> whole[k] == text[k];
  }

  lemma NothingInFront(text: string)
    ensures "" + text == text
  {
  }

  lemma FoundSpaced(text: string, vars: map<string, string>)
    requires AtMostOneBlank(text) && OnePass(text, vars).Some? && !NamesDirect(text)
    ensures Find(text).FirstVar?
    ensures var d := IndexOf(text, '$');
            && d + 1 < |text| && BlankLen(text[d + 1..]) <= 1 && |Find(text).lit| == d && Find(text).name == NameIn(text[d + 1..])
            && Find(text).name in vars && Find(text).name != ""
            && OnePass(Find(text).rest, vars).Some?
  {
  }

  lemma FrontCons(p: Direct, sp: Spaced, text: string)
    requires text == p.lit + "$" + (p.name + (" " + sp.Source()))
    ensures Spaced([p] + sp.front, sp.lit, sp.name, sp.more).Source() == text
  {
    assert ([p] + sp.front)[1..] == sp.front;
    BehindFront(p.lit, p.name, Front(sp.front), sp.lit + "$" + (" " + (sp.name + sp.more)));
  }

  /** The first variable is direct, and some later one is not. */
  lemma DirectRest(text: string)
    requires AtMostOneBlank(text) && !NamesDirect(text)
    requires Find(text).FirstVar? && Find(text).name != "" && text[|Find(text).lit| + 1] != ' '
    ensures var f := Find(text);
            && NoDollar(f.lit) && IsWord(f.name)
            && text == f.lit + "$" + (f.name + (" " + f.rest))
            && AtMostOneBlank(f.rest) && !NamesDirect(f.rest)
  {
    hide Find, AtMostOneBlank;
    var f := Find(text);
    FindNone(text);
    FoundParts(text);
    if |f.lit| + 1 + |f.name| == |text| {
      NothingLeft(text);
    }
    RestOf(f.lit, f.name, f.rest);
    BlanksOfSuffix(text, |f.lit| + |f.name| + 2);
  }

  lemma RestOf(lit: string, name: string, rest: string)
    ensures (lit + "$" + (name + (" " + rest)))[|lit| + |name| + 2..] == rest
  {
  }

  lemma NothingLeft(text: string)
    requires Find(text).FirstVar? && |Find(text).lit| + 1 + |Find(text).name| == |text| && Find(text).name != ""
    ensures NamesDirect(Find(text).rest)
  {
    FindNone("");
  }

  /** A text with a space behind some `$` that the pass meets, if it can be expanded at all, is
      a front of direct variables and then that variable. */
  lemma {:induction false} SpacedOf(text: string, vars: map<string, string>) returns (sp: Spaced)
    requires AtMostOneBlank(text) && OnePass(text, vars).Some? && !NamesDirect(text)
    ensures sp.Valid(vars) && sp.Source() == text
    decreases |text|
  {
    hide Find, OnePass, NamesDirect, AtMostOneBlank, IndexOf, NameIn;
    FoundSpaced(text, vars);
    var f := Find(text);
    if text[|f.lit| + 1] == ' ' {
      sp := FirstSpaced(text, |f.lit|, vars);
    } else {
      DirectRest(text);
      var rest := SpacedOf(f.rest, vars);
      sp := Spaced([Direct(f.lit, f.name)] + rest.front, rest.lit, rest.name, rest.more);
      FrontCons(Direct(f.lit, f.name), rest, text);
    }
  }

  /** For every statement of every file: expansion is the left-to-right rewrite of a template, or
      fails, or meets a `$` with one space behind it; then everything behind the name there is
      lost, whatever it is. */
  lemma StatementExpands(text: string, s: string, vars: map<string, string>)
    requires s in Statements(text)
    ensures s != ""
    ensures || NamesDirect(s[1..])
            || OnePass(s[1..], vars) == None
            || exists sp: Spaced :: Cut(sp, s[1..], vars)
  {
    StatementsNormal(text);
    NormalBlanks(s);
    BlanksOfSuffix(s, 1);
    if !NamesDirect(s[1..]) && OnePass(s[1..], vars).Some? {
      var sp := SpacedOf(s[1..], vars);
      PassAfter(sp.front, sp.lit + "$" + (" " + (sp.name + sp.more)), vars);
      SpacedEnds(sp.lit, sp.name, sp.more, vars);
      assert Cut(sp, s[1..], vars);
    }
  }

  /** The text, and what is left of it: all up to the value of the variable with the space. */
  ghost predicate Cut(sp: Spaced, text: string, vars: map<string, string>) {
    && sp.Valid(vars) && sp.Source() == text
    && OnePass(text, vars) == AddFront(sp.front, vars, Some(Rewritten(sp.lit + (vars[sp.name] + (" " + "")), 1)))
  }

  const P_IS_ETH1: Vars := map["P" := "eth1"]

  const LOSING := ">$ P 01 02"

  lemma LosingParts()
    ensures LOSING[1..] == "" + "$" + (" " + ("P" + " 01 02"))
    ensures [LOSING[0]] + ("" + ("eth1" + (" " + ""))) == ">eth1 "
  {
  }

  /** A concrete statement: the bytes of the packet are lost, and only the port is left. */
  lemma BytesLost()
    ensures Expand(LOSING, P_IS_ETH1) == Some(Rewritten(">eth1 ", 1))
  {
    hide Expand, OnePass;
    ExpandIsOnePass(LOSING, P_IS_ETH1);
    LosingParts();
    SpacedEnds("", "P", " 01 02", P_IS_ETH1);
  }
}
