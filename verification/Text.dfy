/** C string helpers shared by the script, variable and packet code: splitting at spaces
    as strtok(s, " ") does, joining words, and trimming blanks. */
module Text {

  predicate IsAlnum(c: char) {
    '0' <= c <= '9' || 'a' <= c <= 'z' || 'A' <= c <= 'Z'
  }

  /** Length of the leading run of characters other than a space. */
  function WordLen(s: string): (n: nat)
    ensures n <= |s| && forall i :: 0 <= i < n ==> s[i] != ' '
    ensures n < |s| ==> s[n] == ' '
  {
    if s == "" || s[0] == ' ' then 0 else 1 + WordLen(s[1..])
  }

  /** Number of leading spaces. */
  function BlankLen(s: string): (n: nat)
    ensures n <= |s|
    ensures forall i :: 0 <= i < n ==> s[i] == ' '
    ensures n < |s| ==> s[n] != ' '
  {
    if s == "" || s[0] != ' ' then 0 else 1 + BlankLen(s[1..])
  }

  lemma SubSlice(s: string, a: nat, b: nat, i: nat, j: nat)
    requires a <= b <= |s| && i <= j <= b - a
    ensures s[a..b][i..j] == s[a + i..a + j]
  {
    var l, r := s[a..b][i..j], s[a + i..a + j];
    assert |l| == |r| && forall k :: 0 <= k < |l| ==> l[k] == r[k];
  }

  /** The tokens strtok finds with a space as the only delimiter. */
  function Tokens(s: string): (ws: seq<string>)
    ensures AllWords(ws)
    decreases |s|
  {
    if s == "" then []
    else if s[0] == ' ' then Tokens(s[1..])
    else [s[..WordLen(s)]] + Tokens(s[WordLen(s)..])
  }

  predicate IsWord(w: string) {
    w != "" && ' ' !in w
  }

  predicate AllWords(ws: seq<string>) {
    forall i :: 0 <= i < |ws| ==> IsWord(ws[i])
  }

  /** Words separated by single spaces. */
  function Join(ws: seq<string>): string {
    if ws == [] then ""
    else if |ws| == 1 then ws[0]
    else ws[0] + " " + Join(ws[1..])
  }

  lemma {:induction false} WordLenOf(w: string, rest: string)
    requires ' ' !in w
    requires rest == "" || rest[0] == ' '
    ensures WordLen(w + rest) == |w|
  {
    if w != "" {
      assert (w + rest)[1..] == w[1..] + rest;
      WordLenOf(w[1..], rest);
    } else {
      assert w + rest == rest;
    }
  }

  /** A word in front of the end or of a space is the first token. */
  lemma TokensOfWord(w: string, rest: string)
    requires IsWord(w)
    requires rest == "" || rest[0] == ' '
    ensures Tokens(w + rest) == [w] + Tokens(rest)
  {
    WordLenOf(w, rest);
    assert (w + rest)[0] == w[0];
    assert (w + rest)[..|w|] == w && (w + rest)[|w|..] == rest;
  }

  lemma TokensOfTrail(w: string, trail: string)
    requires IsWord(w)
    requires trail == "" || trail == " "
    ensures Tokens(w + trail) == [w]
  {
    TokensOfWord(w, trail);
    assert trail != "" ==> trail[1..] == "";
  }

  lemma TokensOfNext(w: string, rest: string)
    requires IsWord(w)
    ensures Tokens(w + (" " + rest)) == [w] + Tokens(rest)
  {
    TokensOfWord(w, " " + rest);
    assert (" " + rest)[1..] == rest;
  }

  /** Splitting undoes joining, and a final space does not change the tokens. */
  lemma {:induction false} TokensOfJoin(ws: seq<string>, trail: string)
    requires ws != [] && AllWords(ws)
    requires trail == "" || trail == " "
    ensures Tokens(Join(ws) + trail) == ws
  {
    if |ws| == 1 {
      TokensOfTrail(ws[0], trail);
    } else {
      TokensOfJoin(ws[1..], trail);
      TokensOfNext(ws[0], Join(ws[1..]) + trail);
      assert Join(ws) + trail == ws[0] + (" " + (Join(ws[1..]) + trail));
      assert ws == [ws[0]] + ws[1..];
    }
  }

  lemma JoinCons(w: string, ws: seq<string>, trail: string)
    requires ws != []
    ensures Join([w] + ws) == w + " " + Join(ws)
    ensures Join([w] + ws) + trail == w + (" " + (Join(ws) + trail))
  {
    assert ([w] + ws)[1..] == ws;
  }

  datatype Option<+T> = None | Some(value: T)

  /** Position of the first `c`, or the length when there is none. */
  function IndexOf(s: string, c: char): (n: nat)
    ensures n <= |s| && forall i :: 0 <= i < n ==> s[i] != c
    ensures n < |s| ==> s[n] == c
  {
    if s == "" || s[0] == c then 0 else 1 + IndexOf(s[1..], c)
  }

  lemma {:induction false} IndexOfFirst(a: string, c: char, b: string)
    requires c !in a
    ensures IndexOf(a + [c] + b, c) == |a|
  {
    if a == "" {
      assert a + [c] + b == [c] + b;
    } else {
      assert (a + [c] + b)[1..] == a[1..] + [c] + b;
      IndexOfFirst(a[1..], c, b);
    }
  }

  function TrimLeft(s: string): string {
    s[BlankLen(s)..]
  }

  /** Length of the string without its trailing spaces. */
  function TrimmedLen(s: string): (n: nat)
    ensures n <= |s|
    ensures n > 0 ==> s[n - 1] != ' '
    ensures forall i :: n <= i < |s| ==> s[i] == ' '
  {
    if s == "" || s[|s| - 1] != ' ' then |s| else TrimmedLen(s[..|s| - 1])
  }

  function Trim(s: string): string {
    TrimLeft(s[..TrimmedLen(s)])
  }

  predicate Trimmed(s: string) {
    s == "" || (s[0] != ' ' && s[|s| - 1] != ' ')
  }

  /** Trim returns the one substring that is trimmed and has only spaces around it. */
  lemma TrimIsUnique(left: string, core: string, right: string)
    requires forall c :: c in left + right ==> c == ' '
    requires Trimmed(core)
    ensures Trim(left + core + right) == core
  {
    var s := left + core + right;
    var n := TrimmedLen(s);
    forall i | 0 <= i < |left| ensures s[i] == ' ' { assert s[i] == left[i] && left[i] in left + right; }
    forall i | |left| + |core| <= i < |s| ensures s[i] == ' ' {
      assert s[i] == right[i - |left| - |core|] && s[i] in left + right;
    }
    if core == "" {
      assert n == 0;
    } else {
      assert s[|left| + |core| - 1] == core[|core| - 1];
      assert n == |left| + |core|;
      assert s[|left|] == core[0];
      assert BlankLen(s[..n]) == |left|;
      assert s[..n][|left|..] == core;
    }
  }

  lemma TrimOfTrimmed(s: string)
    requires Trimmed(s)
    ensures Trim(s) == s
  {
    TrimIsUnique("", s, "");
    assert "" + s + "" == s;
  }

  lemma TrimOfSpaced(s: string)
    requires Trimmed(s)
    ensures Trim(s + " ") == s
  {
    assert (s + " ")[..|s|] == s;
    assert TrimmedLen(s + " ") == |s|;
    assert BlankLen(s) == 0 && s[0..] == s;
  }

  lemma TrimTrims(s: string)
    ensures Trimmed(Trim(s)) && |Trim(s)| <= |s|
  {
  }

  /** Trimming and cutting bring in no new character. */
  lemma TrimLacks(s: string, lo: nat, hi: nat, c: char)
    requires lo <= hi <= |s| && c !in s
    ensures c !in Trim(s[lo..hi])
  {
    var t := s[lo..hi];
    var n := TrimmedLen(t);
    var b := BlankLen(t[..n]);
    SubSlice(s, lo, hi, b, n);
    assert Trim(t) == t[..n][b..] == t[b..n];
  }

  lemma Assoc<T>(a: seq<T>, b: seq<T>, c: seq<T>)
    ensures a + (b + c) == a + b + c
  {
  }
}
