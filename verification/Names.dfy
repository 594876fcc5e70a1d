/** Which names the program accepts for test cases and files, with the characters written out. */
module Names {
  import opened Text
  import opened Variables
  import opened Trace
  import opened Interpreter
  import opened StatementEvents
  import opened LoopbackTest

  // ---------- Characters ----------

  const DIGITS := "0123456789"
  const LOWER := "abcdefghijklmnopqrstuvwxyz"
  const UPPER := "ABCDEFGHIJKLMNOPQRSTUVWXYZ"

  predicate LetterOrDigit(c: char) {
    c in DIGITS || c in LOWER || c in UPPER
  }

  lemma InDigits(c: char)
    ensures c in DIGITS <==> '0' <= c <= '9'
  {
    if '0' <= c <= '9' {
      assert DIGITS[c as int - '0' as int] == c;
    }
  }

  lemma InLower(c: char)
    ensures c in LOWER <==> 'a' <= c <= 'z'
  {
    if 'a' <= c <= 'z' {
      assert LOWER[c as int - 'a' as int] == c;
    }
  }

  lemma InUpper(c: char)
    ensures c in UPPER <==> 'A' <= c <= 'Z'
  {
    if 'A' <= c <= 'Z' {
      assert UPPER[c as int - 'A' as int] == c;
    }
  }

  lemma AlnumIs(c: char)
    ensures IsAlnum(c) <==> LetterOrDigit(c)
  {
    InDigits(c);
    InLower(c);
    InUpper(c);
  }

  // ---------- Test cases ----------

  /** One to ten letters, digits and underscores. */
  predicate GoodId(w: string) {
    1 <= |w| <= 10 && forall i :: 0 <= i < |w| ==> LetterOrDigit(w[i]) || w[i] == '_'
  }

  lemma IdChars(w: string)
    ensures (forall i :: 0 <= i < |w| ==> IsIdChar(w[i])) <==> (forall i :: 0 <= i < |w| ==> LetterOrDigit(w[i]) || w[i] == '_')
  {
    forall i | 0 <= i < |w| ensures IsIdChar(w[i]) <==> LetterOrDigit(w[i]) || w[i] == '_' { AlnumIs(w[i]); }
  }

  /** A statement of at most 200 characters names a test case exactly when it has one word and that is
      a good one. */
  lemma IdAccepted(stmt: string)
    requires stmt != "" && |stmt| <= 200
    ensures TestCaseId(stmt) ==
            if |Tokens(stmt[1..])| == 1 && GoodId(Tokens(stmt[1..])[0]) then Some(Tokens(stmt[1..])[0]) else None
  {
    assert stmt[..|stmt|] == stmt;
    if |Tokens(stmt[1..])| == 1 {
      hide IsIdChar, LetterOrDigit;
      IdChars(Tokens(stmt[1..])[0]);
    }
  }

  /** Of a longer statement only the first 200 characters count. */
  lemma IdCut(stmt: string)
    requires |stmt| > 200
    ensures TestCaseId(stmt) == TestCaseId(stmt[..200])
  {
    assert stmt[..200][..200] == stmt[..200];
  }

  /** `@` and words. */
  function Naming(words: seq<string>): string {
    "@" + (Join(words) + "")
  }

  lemma NamingTokens(words: seq<string>)
    requires AllWords(words)
    ensures Naming(words) != "" && Naming(words)[0] == '@' && Tokens(Naming(words)[1..]) == words
  {
    assert Naming(words)[1..] == Join(words) + "";
    if words != [] {
      TokensOfJoin(words, "");
    }
  }

  /** A good name starts a test case: the one before is cleaned up and reported, and the new one has
      its name and is PASSED. */
  lemma GoodIdStarts(w: World, s: State, word: string)
    requires IsWord(word) && GoodId(word)
    ensures var r := RunTestCase(w, Naming([word]), s);
            var c := Cleanup(w, s);
            r.ret == 1 && r.state == c.(verdict := Passed, id := word, trace := c.trace + [Accepted(word)])
  {
    NamingTokens([word]);
    IdAccepted(Naming([word]));
  }

  /** Every other statement leaves all as it is and fails: no name, a name of eleven or more
      characters or with some other character, or a second word. */
  lemma OtherIdFails(w: World, s: State, words: seq<string>)
    requires AllWords(words) && |Naming(words)| <= 200 && !(|words| == 1 && GoodId(words[0]))
    ensures RunTestCase(w, Naming(words), s) == Result(s, 0)
  {
    NamingTokens(words);
    IdAccepted(Naming(words));
  }

  lemma LongIdFails(w: World, s: State, word: string)
    requires IsWord(word) && 11 <= |word| <= 199
    ensures RunTestCase(w, Naming([word]), s) == Result(s, 0)
  {
    OtherIdFails(w, s, [word]);
  }

  // ---------- Files ----------

  predicate GoodFileName(w: string) {
    forall i :: 0 <= i < |w| ==> LetterOrDigit(w[i]) || w[i] in "._/"
  }

  lemma FileChars(w: string)
    ensures (forall i :: 0 <= i < |w| ==> IsFileChar(w[i])) <==> GoodFileName(w)
  {
    forall i | 0 <= i < |w| ensures IsFileChar(w[i]) <==> LetterOrDigit(w[i]) || w[i] in "._/" { AlnumIs(w[i]); }
  }

  /** An include names a file exactly when it has one word, of letters, digits, `.`, `_` and `/`. */
  lemma FileNameAccepted(stmt: string)
    requires stmt != ""
    ensures IncludeName(stmt) ==
            if |Tokens(stmt[1..])| == 1 && GoodFileName(Tokens(stmt[1..])[0]) then Some(Tokens(stmt[1..])[0]) else None
  {
    if |Tokens(stmt[1..])| == 1 {
      hide IsFileChar, LetterOrDigit;
      FileChars(Tokens(stmt[1..])[0]);
    }
  }

  function Including(words: seq<string>): string {
    "#" + (Join(words) + "")
  }

  lemma IncludeTokens(words: seq<string>)
    requires AllWords(words)
    ensures Including(words) != "" && Including(words)[0] == '#' && Tokens(Including(words)[1..]) == words
  {
    assert Including(words)[1..] == Join(words) + "";
    if words != [] {
      TokensOfJoin(words, "");
    }
  }

  /** An include with another character in its name, with no name or with a second word fails, and no
      file is opened. */
  lemma BadIncludeFails(w: World, s: State, words: seq<string>, depth: int)
    requires AllWords(words) && AllStorable(words) && 0 <= depth < MAX_SCRIPT_FILE_DEPTH
    requires !(|words| == 1 && GoodFileName(words[0]))
    ensures var stmt := Including(words);
            NoDollar(stmt[1..]) && '\0' !in stmt && Execute(w, stmt, s, depth) == Result(s, 0)
  {
    IncludeTokens(words);
    FileNameAccepted(Including(words));
    JoinStorable(words);
    assert Including(words)[1..] == Join(words);
  }

  /** A good name of a file that is there, at a depth of at most three, is processed. */
  lemma GoodIncludeRuns(w: World, s: State, word: string, depth: int)
    requires IsWord(word) && GoodFileName(word) && Storable(word) && 0 <= depth <= 3 && word in w.files
    ensures var stmt := Including([word]);
            && NoDollar(stmt[1..]) && '\0' !in stmt
            && Execute(w, stmt, s, depth) == RunStatements(w, w.files[word], SUCCESS, Log(s, Entered(word)), depth + 1)
  {
    IncludeTokens([word]);
    FileNameAccepted(Including([word]));
    JoinStorable([word]);
    assert Including([word])[1..] == Join([word]);
    ProcessIs(w, word, s, depth);
  }

  /** Names as in the sample scripts. */
  lemma SampleFileName()
    ensures GoodFileName("addr.edpat")
  {
    hide LetterOrDigit, GoodFileName;
    FileChars("addr.edpat");
  }

  lemma SampleId()
    ensures GoodId("ARP_1") && !GoodId("ARP_REQUEST_TEST")
  {
    hide LetterOrDigit;
    IdChars("ARP_1");
  }
}
