/** scripts.c, ScriptReadStatement: cutting the text of a script file into statements.

    A file handle is the text not yet read. `ReadFrom` and `Statements` follow the loop of
    the program chunk by chunk (a chunk is what one fgets call returns), `Scan` is the
    reading of a text whose lines fit a chunk, and a `Layout` is a way to write a
    statement down. */
module ScriptReader {

  const MAX_SCRIPT_LINE_LEN := 200

  predicate IsControl(c: char) {
    c < ' ' || '~' < c
  }

  /** The number of characters up to and including the first newline, at most `limit`. */
  function LineLen(text: string, limit: nat): (n: nat)
    ensures n <= |text| && n <= limit
    ensures text != "" && limit > 0 ==> n > 0
    ensures n < |text| && n < limit ==> n > 0 && text[n - 1] == '\n'
  {
    if text == "" || limit == 0 then 0
    else if text[0] == '\n' then 1
    else 1 + LineLen(text[1..], limit - 1)
  }

  /** What fgets(ScriptLine, MAX_SCRIPT_LINE_LEN, fp) takes from the file. */
  function ChunkLen(text: string): (n: nat)
    ensures n <= |text|
    ensures text != "" ==> n > 0
  {
    LineLen(text, MAX_SCRIPT_LINE_LEN - 1)
  }

  function LineEnd(text: string): (n: nat)
    ensures n <= |text|
    ensures text != "" ==> n > 0
  {
    LineLen(text, |text|)
  }

  function AfterLine(text: string): (rest: string)
    ensures |rest| <= |text|
    ensures text != "" ==> |rest| < |text|
  {
    text[LineEnd(text)..]
  }

  // ---------- The loop as the program has it ----------

  datatype LineResult = Complete(stmt: string) | Partial(stmt: string, wasSpace: bool)

  /** A space is stored only after another character. */
  function Separate(acc: string, wasSpace: bool): string {
    if wasSpace then acc else acc + " "
  }

  /** The inner loop over one chunk; `acc` is the statement so far. */
  function ScanLine(line: string, acc: string, wasSpace: bool): LineResult {
    if line == "" || line[0] == '\0' then Partial(acc, wasSpace)
    else
      var c := if IsControl(line[0]) then ' ' else line[0];
      if c == '!' then Partial(Separate(acc, wasSpace), true)
      else if c == ';' then
        if acc == "" then ScanLine(line[1..], acc, wasSpace) else Complete(acc)
      else if c == ' ' then ScanLine(line[1..], Separate(acc, wasSpace), true)
      else ScanLine(line[1..], acc + [c], false)
  }

  datatype Reading = Reading(stmt: string, rest: string)

  /** The outer loop: the statement returned and the text left unread. */
  function ReadFrom(text: string, acc: string, wasSpace: bool): (r: Reading)
    ensures |r.rest| <= |text|
    ensures text != "" ==> |r.rest| < |text|
    decreases |text|
  {
    if text == "" then Reading(acc, "")
    else
      var n := ChunkLen(text);
      match ScanLine(text[..n], acc, wasSpace)
      case Complete(stmt) => Reading(stmt, text[n..])
      case Partial(stmt, w) => ReadFrom(text[n..], stmt, w)
  }

  function FirstStatement(text: string): (r: Reading)
    ensures |r.rest| <= |text|
    ensures r.stmt != "" ==> |r.rest| < |text|
  {
    ReadFrom(text, "", true)
  }

  /** Everything a loop that reads until the empty statement gets from a file. */
  function Statements(text: string): (ss: seq<string>)
    ensures forall s :: s in ss ==> s != ""
    decreases |text|
  {
    var r := FirstStatement(text);
    if r.stmt == "" then [] else [r.stmt] + Statements(r.rest)
  }

  /** An open script file: reading a statement consumes its text. */
  class ScriptFile {
    var unread: string

    constructor (text: string)
      ensures unread == text
    {
      unread := text;
    }

    method ReadStatement() returns (statement: string)
      modifies this
      ensures Reading(statement, unread) == FirstStatement(old(unread))
    {
      statement := "";
      var wasLastCharSpace := true;
      while unread != ""
        invariant ReadFrom(unread, statement, wasLastCharSpace) == FirstStatement(old(unread))
        decreases |unread|
      {
        var scriptLine := unread[..ChunkLen(unread)];
        ghost var before := ScanLine(scriptLine, statement, wasLastCharSpace);
        unread := unread[ChunkLen(unread)..];
        var i := 0;
        while i < |scriptLine| && scriptLine[i] != '\0'
          invariant i <= |scriptLine|
          invariant ScanLine(scriptLine[i..], statement, wasLastCharSpace) == before
        {
          if IsControl(scriptLine[i]) {
            scriptLine := scriptLine[i := ' '];
          }
          if scriptLine[i] == '!' {
            if !wasLastCharSpace {
              statement := statement + " ";
              wasLastCharSpace := true;
            }
            break;
          }
          if scriptLine[i] == ';' {
            if statement == "" {
              i := i + 1;
              continue;
            }
            return;
          }
          if scriptLine[i] == ' ' {
            if !wasLastCharSpace {
              statement := statement + " ";
            }
            wasLastCharSpace := true;
          } else {
            statement := statement + [scriptLine[i]];
            wasLastCharSpace := false;
          }
          i := i + 1;
        }
      }
    }
  }
}
