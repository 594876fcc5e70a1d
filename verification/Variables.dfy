/** variable.c and TrimStr of utils.c: the table of variables, a linear array that stands
    for a finite map from trimmed names to trimmed values. */
module Variables {
  import opened Text

  const MAX_VAR_COUNT := 100

  predicate NoDollar(s: string) {
    '$' !in s
  }

  predicate Storable(s: string) {
    '$' !in s && '\0' !in s
  }

  /** A stored name and value: trimmed, without `$`, and no `=` in the name. */
  predicate Entry(name: string, value: string) {
    && Storable(name) && Trimmed(name) && '=' !in name
    && Storable(value) && Trimmed(value)
  }

  /** All that is stored is an entry. Expansion ends because no value holds a `$`. */
  ghost predicate Clean(vars: map<string, string>) {
    forall n :: n in vars ==> Entry(n, vars[n])
  }

  type Vars = m: map<string, string> | Clean(m) witness map[]

  // ---------- What a `$` statement means ----------

  datatype Assignment = Assignment(name: string, value: string)

  /** The text after the `$`: a name and a value around the first `=`. */
  function ParseAssignment(text: string): Option<Assignment> {
    var eq := IndexOf(text, '=');
    if eq == |text| then None
    else Some(Assignment(Trim(text[..eq]), Trim(text[eq + 1..])))
  }

  predicate HasRoom(vars: map<string, string>, name: string) {
    name in vars || |vars| + 1 < MAX_VAR_COUNT
  }

  lemma PartClean(text: string, lo: nat, hi: nat)
    requires Storable(text) && lo <= hi <= |text|
    ensures Storable(Trim(text[lo..hi])) && Trimmed(Trim(text[lo..hi]))
  {
    TrimLacks(text, lo, hi, '$');
    TrimLacks(text, lo, hi, '\0');
    TrimTrims(text[lo..hi]);
  }

  lemma NameClean(name: string)
    requires '=' !in name
    ensures '=' !in Trim(name)
  {
    assert name[0..|name|] == name;
    TrimLacks(name, 0, |name|, '=');
  }

  /** What an assignment stores is an entry. */
  lemma AssignmentClean(text: string)
    requires Storable(text)
    ensures match ParseAssignment(text)
            case None => true
            case Some(a) => Entry(a.name, a.value)
  {
    hide Trim, Trimmed;
    var eq := IndexOf(text, '=');
    PartClean(text, 0, eq);
    NameClean(text[..eq]);
    if eq < |text| {
      PartClean(text, eq + 1, |text|);
      assert text[eq + 1..|text|] == text[eq + 1..];
    }
  }

  function SetVar(vars: Vars, a: Assignment): (r: Option<Vars>)
    requires Entry(a.name, a.value)
  {
    if HasRoom(vars, a.name) then Some(vars[a.name := a.value]) else None
  }

  /** The table after `$text`; None when the statement is refused. */
  function Store(vars: Vars, text: string): Option<Vars>
    requires Storable(text)
  {
    AssignmentClean(text);
    var parsed := ParseAssignment(text);
    if parsed.None? then None else SetVar(vars, parsed.value)
  }

  /** Spaces around the name and the value do not matter. */
  lemma AssignmentLayout(a: string, name: string, b: string, value: string)
    requires Trim(a) == name && '=' !in a
    requires Trim(b) == value
    ensures ParseAssignment(a + "=" + b) == Some(Assignment(name, value))
  {
    IndexOfFirst(a, '=', b);
    var text := a + "=" + b;
    assert text[..|a|] == a && text[|a| + 1..] == b;
  }

  /** Storing `$n=v` makes n look up to v, keeps every other variable, and never lets the
      table outgrow its 99 entries. */
  lemma StoredThenRead(vars: Vars, name: string, value: string)
    requires Trimmed(name) && '=' !in name && Storable(name)
    requires Trimmed(value) && Storable(value)
    requires HasRoom(vars, name)
    ensures Storable(name + "=" + value)
    ensures Store(vars, name + "=" + value) == Some(vars[name := value])
    ensures |vars| < MAX_VAR_COUNT ==> |vars[name := value]| < MAX_VAR_COUNT
  {
    TrimOfTrimmed(name);
    TrimOfTrimmed(value);
    AssignmentLayout(name, name, value, value);
  }

  // ---------- C strings ----------

  /** The C string that starts at `at` in a buffer. */
  function CString(buf: seq<char>, at: nat): (s: string)
    requires at <= |buf|
    ensures at + |s| <= |buf|
    ensures s == buf[at..at + |s|] && '\0' !in s
    ensures at + |s| < |buf| ==> buf[at + |s|] == '\0'
    decreases |buf| - at
  {
    if at == |buf| || buf[at] == '\0' then "" else [buf[at]] + CString(buf, at + 1)
  }

  /** What is in front of the first NUL is the string. */
  lemma {:induction false} CStringIs(buf: seq<char>, at: nat, s: string)
    requires at + |s| < |buf| && buf[at..at + |s|] == s
    requires '\0' !in s && buf[at + |s|] == '\0'
    ensures CString(buf, at) == s
    decreases |s|
  {
    if s != "" {
      assert buf[at] == buf[at..at + |s|][0] == s[0];
      assert buf[at + 1..at + |s|] == s[1..];
      CStringIs(buf, at + 1, s[1..]);
    }
  }

  /** The two index loops of TrimStr. */
  method TrimmedPart(s: string) returns (out: string)
    ensures out == Trim(s)
  {
    var i := |s| - 1;
    while i >= 0
      invariant -1 <= i < |s|
      invariant forall k :: i < k < |s| ==> s[k] == ' '
    {
      if s[i] != ' ' {
        break;
      }
      i := i - 1;
    }
    var tmp := s[..i + 1];
    assert TrimmedLen(s) == i + 1;
    var len := i;
    i := 0;
    while i < len
      invariant 0 <= i && (i <= len || i == 0)
      invariant forall k :: 0 <= k < i ==> tmp[k] == ' '
    {
      if tmp[i] != ' ' {
        break;
      }
      i := i + 1;
    }
    assert BlankLen(tmp) == i;
    out := tmp[i..];
  }

  /** utils.c: trims the string at `at` in place and touches nothing outside it. */
  method TrimStr(str: array<char>, at: nat)
    requires at < str.Length
    requires at + |CString(str[..], at)| < str.Length
    modifies str
    ensures CString(str[..], at) == Trim(old(CString(str[..], at)))
    ensures at + |CString(str[..], at)| < str.Length
    ensures forall k :: 0 <= k < at || at + old(|CString(str[..], at)|) < k < str.Length ==> str[k] == old(str[k])
  {
    var tmp := CString(str[..], at);
    var out := TrimmedPart(tmp);
    TrimTrims(tmp);
    TrimLacks(tmp, 0, |tmp|, '\0');
    assert tmp[0..|tmp|] == tmp;
    CopyString(str, at, out);
  }

  /** strcpy into the buffer at `at`. */
  method CopyString(str: array<char>, at: nat, out: string)
    requires at + |out| < str.Length && '\0' !in out
    modifies str
    ensures CString(str[..], at) == out
    ensures forall k :: 0 <= k < at || at + |out| < k < str.Length ==> str[k] == old(str[k])
  {
    var k := 0;
    while k < |out|
      invariant k <= |out|
      invariant forall j :: 0 <= j < k ==> str[at + j] == out[j]
      invariant forall j :: 0 <= j < at || at + k <= j < str.Length ==> str[j] == old(str[j])
    {
      str[at + k] := out[k];
      k := k + 1;
    }
    str[at + k] := '\0';
    assert str[..][at..at + |out|] == out;
    CStringIs(str[..], at, out);
  }

  /** The first half of VariableStoreValue: a NUL over the `=` makes two strings of one,
      and both are trimmed where they stand. */
  method SplitAtEquals(text: string) returns (r: Option<Assignment>)
    requires '\0' !in text
    ensures r == ParseAssignment(text)
  {
    hide Trim, IndexOf;
    var eq := IndexOf(text, '=');
    if eq == |text| {
      return None;
    }
    var tmp := new char[|text| + 1](i => if 0 <= i < |text| then text[i] else '\0');
    var varName := TrimAt(tmp, 0, eq, text[..eq]);
    var varValue := TrimAt(tmp, eq + 1, |text|, text[eq + 1..]);
    return Some(Assignment(varName, varValue));
  }

  /** Ends the string at `at` with a NUL at `end`, trims it in place and reads it back. */
  method TrimAt(tmp: array<char>, at: nat, end: nat, s: string) returns (r: string)
    requires at <= end < tmp.Length && tmp[at..end] == s && '\0' !in s
    modifies tmp
    ensures r == Trim(s)
    ensures forall k :: end < k < tmp.Length ==> tmp[k] == old(tmp[k])
  {
    tmp[end] := '\0';
    assert tmp[..][at..at + |s|] == s;
    CStringIs(tmp[..], at, s);
    TrimStr(tmp, at);
    r := CString(tmp[..], at);
  }

  // ---------- The table ----------

  /** The map a table stands for, read from its first `n` entries. */
  function TableMap(names: seq<string>, values: seq<string>, n: nat): map<string, string>
    requires n <= |names| && n <= |values|
  {
    if n == 0 then map[] else TableMap(names, values, n - 1)[names[n - 1] := values[n - 1]]
  }

  ghost predicate Distinct(names: seq<string>, n: nat)
    requires n <= |names|
  {
    forall i, j :: 0 <= i < j < n ==> names[i] != names[j]
  }

  /** Membership in the map is presence in the table. */
  lemma {:induction false} TableMapKeys(names: seq<string>, values: seq<string>, n: nat, key: string)
    requires n <= |names| && n <= |values|
    ensures key in TableMap(names, values, n) <==> key in names[..n]
  {
    if n > 0 {
      TableMapKeys(names, values, n - 1, key);
      assert names[..n] == names[..n - 1] + [names[n - 1]];
    }
  }

  lemma {:induction false} TableMapAt(names: seq<string>, values: seq<string>, n: nat, i: nat)
    requires i < n <= |names| && n <= |values| && Distinct(names, n)
    ensures names[i] in TableMap(names, values, n)
    ensures TableMap(names, values, n)[names[i]] == values[i]
  {
    if i < n - 1 {
      TableMapAt(names, values, n - 1, i);
    }
  }

  lemma {:induction false} TableMapSize(names: seq<string>, values: seq<string>, n: nat)
    requires n <= |names| && n <= |values| && Distinct(names, n)
    ensures |TableMap(names, values, n)| == n
  {
    if n > 0 {
      TableMapSize(names, values, n - 1);
      TableMapKeys(names, values, n - 1, names[n - 1]);
    }
  }

  lemma {:induction false} TableMapSame(names: seq<string>, values: seq<string>, names': seq<string>, values': seq<string>, n: nat)
    requires n <= |names| && n <= |values| && n <= |names'| && n <= |values'|
    requires forall i :: 0 <= i < n ==> names[i] == names'[i] && values[i] == values'[i]
    ensures TableMap(names, values, n) == TableMap(names', values', n)
  {
    if n > 0 {
      TableMapSame(names, values, names', values', n - 1);
    }
  }

  lemma {:induction false} TableMapUpdate(names: seq<string>, values: seq<string>, n: nat, i: nat, value: string)
    requires i < n <= |names| && n <= |values| && Distinct(names, n)
    ensures TableMap(names, values[i := value], n) == TableMap(names, values, n)[names[i] := value]
  {
    if i < n - 1 {
      TableMapUpdate(names, values, n - 1, i, value);
      var m := TableMap(names, values, n - 1);
      assert m[names[i] := value][names[n - 1] := values[n - 1]] == m[names[n - 1] := values[n - 1]][names[i] := value];
    } else {
      TableMapSame(names, values[i := value], names, values, n - 1);
    }
  }

  lemma CleanUpdate(vars: map<string, string>, name: string, value: string)
    requires Clean(vars) && Entry(name, value)
    ensures Clean(vars[name := value])
  {
  }

  /** VarList and NextFreeVarListIndex. */
  class VarTable {
    const names: array<string>
    const values: array<string>
    var next: nat

    ghost predicate Valid()
      reads this, names, values
    {
      && names != values
      && names.Length == values.Length == MAX_VAR_COUNT
      && next < MAX_VAR_COUNT
      && Distinct(names[..], next)
      && Clean(TableMap(names[..], values[..], next))
    }

    ghost function Map(): Vars
      requires Valid()
      reads this, names, values
    {
      TableMap(names[..], values[..], next)
    }

    constructor ()
      ensures Valid() && Map() == map[]
      ensures fresh(names) && fresh(values)
    {
      names := new string[MAX_VAR_COUNT](_ => "");
      values := new string[MAX_VAR_COUNT](_ => "");
      next := 0;
    }

    method VariableGetValue(varName: string) returns (value: Option<string>)
      requires Valid()
      ensures value == if varName in Map() then Some(Map()[varName]) else None
    {
      var i := 0;
      while i < next
        invariant i <= next
        invariant forall k :: 0 <= k < i ==> names[k] != varName
      {
        if names[i] == varName {
          TableMapAt(names[..], values[..], next, i);
          return Some(values[i]);
        }
        i := i + 1;
      }
      TableMapKeys(names[..], values[..], next, varName);
      return None;
    }

    method VariableStoreValue(text: string) returns (ok: bool)
      requires Valid()
      requires Storable(text)
      modifies this, names, values
      ensures Valid()
      ensures ok == Store(old(Map()), text).Some?
      ensures Map() == if ok then Store(old(Map()), text).value else old(Map())
    {
      var parsed := SplitAtEquals(text);
      if parsed.None? {
        return false;
      }
      AssignmentClean(text);
      ok := SetEntry(parsed.value.name, parsed.value.value);
    }

    /** A new entry behind the others. */
    method Append(varName: string, varValue: string)
      requires Valid() && Entry(varName, varValue) && varName !in Map() && next + 1 < MAX_VAR_COUNT
      modifies this, names, values
      ensures Valid() && Map() == old(Map())[varName := varValue]
    {
      TableMapKeys(names[..], values[..], next, varName);
      CleanUpdate(Map(), varName, varValue);
      hide Clean, Entry;
      names[next] := varName;
      values[next] := varValue;
      TableMapSame(old(names[..]), old(values[..]), names[..], values[..], next);
      next := next + 1;
    }

    /** The search, overwrite and append of VariableStoreValue. */
    method SetEntry(varName: string, varValue: string) returns (ok: bool)
      requires Valid() && Entry(varName, varValue)
      modifies this, names, values
      ensures Valid()
      ensures ok == HasRoom(old(Map()), varName)
      ensures Map() == if ok then old(Map())[varName := varValue] else old(Map())
    {
      CleanUpdate(Map(), varName, varValue);
      hide Clean, Entry;
      var i := 0;
      while i < next
        invariant i <= next
        invariant forall k :: 0 <= k < i ==> names[k] != varName
      {
        if names[i] == varName {
          TableMapKeys(names[..], values[..], next, varName);
          TableMapUpdate(names[..], values[..], next, i, varValue);
          values[i] := varValue;
          assert values[..] == old(values[..])[i := varValue];
          return true;
        }
        i := i + 1;
      }
      TableMapKeys(names[..], values[..], next, varName);
      TableMapSize(names[..], values[..], next);
      if MAX_VAR_COUNT <= next + 1 {
        return false;
      }
      Append(varName, varValue);
      return true;
    }
  }
}
