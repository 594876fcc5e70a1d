# EDpAT, verified

EDpAT sends and checks Ethernet packets as a script says. The script is cut into statements,
variables are expanded, packet statements become bytes, received packets are compared, and each
test case ends with one report. This project models these parts and proves what they promise,
for all scripts, all traffic and all answers of the outside world.

The C program works by changing globals and buffers. So do the classes here: `Edpat` (edpat.c,
testcase.c and the files of scripts.c), `Engine` (the static arrays of packet.c), `PortTable`
(EthPortIO.c), `VarTable` (variable.c) and `ScriptFile` (the lexer). Every method of them is
proved equal to a function of the state before it. The theorems are about these functions:

- `Interpreter` gives the run of a script as a function that also keeps the history of events.
  `RunInvariant` shows that every history is legal in the sense of `Trace`, which defines verdict,
  test case, variables and last match from the events alone. Soundness of PASSED, monotonicity,
  exactly-once reporting and the origin of copied bytes follow.
- `Nesting`, `Coverage` and `Conservation` say over whole runs that no statement is left half
  done, none is lost or read twice, and no packet is lost between a queue and the test. `Arrivals`
  ties the queues to the frames that come in, and `PassedReports` to each PASSED report. `Untouched`
  says over whole runs which checksums are right.
- `Inlining` shows that an include is its statements run in place.
- `PacketSpec` and `Checksum` say what a statement builds and accepts, and when the checksums
  are right; `LoopbackTest` puts both sides together into a whole test.
- `Visits` shows which statement is behind each event of a run, and `Sending` what the answers of the
  outside make of it: a packet shown as sent has left.
- `PacketTokens`, `Names` and `Limits` write out the characters and numbers: digits, names, lengths, depths.
- `ScriptLayout`, `Expansion` and `SpacedNames` say what the lexer and the expander mean.
- `Witnesses` has whole runs of short scripts on which the program does not do what it is meant to.
- `Ports` has the receiver threads interleaved with the program. The outside is a finite list of
  ticks, one for each call to it: the frames that arrive up to then, and whether it succeeds.
  Every list is allowed, so every interleaving is.

A C string is a `seq<char>` without NUL. 32-bit numbers, bytes and the folding of carries are
modelled with their widths; `strtol` with its sign, prefix and limits.

Where the code and its documentation differ, the model follows the code:

- README.md of the program writes `? <n>`. With the space the code reads `?` as byte 0 and `<n>`
  as a byte of its own (`BareQuestionMark`); `?n` is taken modulo 256 (`CopyTokenNames`).
- A checksum field is meant to be zero while its range is summed, but the buffer is static and the
  field is not cleared, so a second packet may carry a wrong checksum. `SentChecks` gives the
  exact condition, `Resend` that of a statement sent twice, `ResentRun` a script on which it happens.
- For an odd range two bytes behind the range get into the sum (`OddRange`, `OddStoredChecks`; `OddRun` is a
  script with a wrong checksum).
- A passed-over last statement makes its file return a number of substitutions, which can turn
  FAILED into SKIPPED in the including file (`FailedSurvives`, `IncludeChangesVerdict`).
- A statement of the lexer has at most one space between a `$` and a name (`NormalBlanks`). With that
  space the name is still found, but everything behind it is lost (`SpacedEnds`, `BytesLost`), and
  `SpaceHarmless` says exactly when that makes no difference, `LosingRun` is a script on which it does; `ExpandTemplate` is about names that
  follow their `$` directly, and `StatementExpands` shows that there is nothing else.

## Model

| member | source | states |
|---|---|---|
| Tester.Edpat.TestScriptProcess | edpat.c:62-160 | The program's loop over the statements of a file, calling itself for included files, ends on every set of files, cyclic ones too; it leaves ScriptFileDepth as it found it (always -1 to 4) and its globals and return value as the interpreter's ProcessFile says. |
| Tester.Edpat.ProcessStatements | edpat.c:78-157 | The loop over one open file, statement by statement as the lexer delivers them, has the effect of RunStatements on the statements of the text. |
| Tester.Edpat.ProcessStatement | edpat.c:83-156 | One round: a failed expansion gives SKIPPED and -1; otherwise the expanded statement is considered. |
| Tester.Edpat.ProcessExpanded | edpat.c:92-156 | In a failed or skipped test case all but `@` is passed over, and retVal keeps the substitution count; a result other than SUCCESS gives SKIPPED. |
| Tester.Edpat.Dispatch | edpat.c:103-152 | The switch on the command character, the unknown command included. |
| Tester.Edpat.BeginIfUnknown | edpat.c:117-125 | The first packet outside a test case sets PASSED after a cleanup. |
| Tester.Edpat.ProcessPacketStatement | edpat.c:114-137 | A packet statement begins a test case if there is none and is only checked for syntax when the flag says so. |
| Tester.Edpat.ProcessAssignment | edpat.c:138-141 | A `$` statement stores what the text behind the `$` says, or leaves the table as it was. |
| Tester.Edpat.GetTestCaseID | testcase.c:84-146 | A name is accepted exactly when it is the one word of the statement, made of letters, digits and `_`, of at most ten characters; then the last test case is cleaned up first and the verdict is PASSED. |
| Tester.Edpat.CleanupLastTestExecution | testcase.c:37-45 | The queues are looked at, and then the verdict is reported unless it is UNKNOWN. |
| Tester.Edpat.TestCaseFinalResultPrint | print.c:387-419 | With a verdict given, one entry in the report log with the current name and verdict. |
| Tester.Edpat.ScriptIncludeFile | scripts.c:221-269 | An include with one valid file name processes that file one level deeper; anything else fails and changes nothing. |
| Tester.Edpat.ScriptOpen | scripts.c:139-182 | A file is opened exactly when it exists and the depth limit is not reached; only then the depth grows by one. |
| Tester.Edpat.ScriptClose | scripts.c:198-203 | The depth goes back by one and nothing else changes. |
| Tester.Edpat.Run | edpat.c:300-303 | A run from the initial state is the interpreter's Program: the script, then the last cleanup. |
| Names.IdAccepted | testcase.c:96-131 | A statement of at most 200 characters names a test case exactly when it has one word, of one to ten letters, digits and underscores. |
| Names.IdCut | testcase.c:93-94 | Of a longer statement the first 200 characters count. |
| Names.GoodIdStarts | testcase.c:133-145 | A good name returns SUCCESS (1): the test case before is cleaned up and reported, the new one has its name and is PASSED. |
| Names.OtherIdFails | testcase.c:98-131 | No name, eleven or more characters, another character or a second word return FAILED (0) and change nothing. |
| Names.LongIdFails | testcase.c:117-122 | So does a name of eleven or more characters. |
| Names.SampleId | testcase.c:103-122 | `ARP_1` is a good name, and `ARP_REQUEST_TEST` is not. |
| Names.FileNameAccepted | scripts.c:233-264 | An include names a file exactly when it has one word, of letters, digits, `.`, `_` and `/`. |
| Names.SampleFileName | scripts.c:243-255 | `addr.edpat` is a good file name. |
| Names.BadIncludeFails | scripts.c:235-264 | Any other include returns FAILED and opens nothing. |
| Names.GoodIncludeRuns | scripts.c:266-268 | A good name of a file that is there, with at most four files open, has its file run one level deeper. |
| Limits.FileDepth | scripts.c:143-147 | A file is opened exactly when it is there and at most four are open. |
| Limits.SixFiles | scripts.c:143-147 | Of six files in a chain the first five are opened and the sixth is not; the run is reported SKIPPED. |
| Limits.T1Run | testcase.c:133-145 | The run of the script `@T1` reports T1 as PASSED. |
| Limits.VariableRoom | variable.c:92-98 | A new variable fits exactly when at most 98 are there. |
| Limits.TenChecksums | packet.c:204-208 | Ten checksums are accepted and eleven are not. |
| Limits.PortNameLength | packet.c:149-163 | A port is named by the first word, of at most nineteen characters. |
| Limits.PacketLength | packet.c:177-303 | A list of tokens is read exactly when none is bad and they take at most 9000 bytes. |
| RunInvariant.StepKeeps | edpat.c:80-157 | Every statement, at every depth, keeps the invariant: the history is legal, verdict, test case and variables are what the history says, UNKNOWN means no open port, PASSED means RecvPkt still holds the packet matched last. |
| RunInvariant.ProcessFileKeeps | edpat.c:62-160 | Files, with all that they include, keep the invariant. |
| RunInvariant.CleanupKeeps | testcase.c:37-45 | A cleanup adds exactly one report if there is a verdict and none otherwise, and keeps the invariant. |
| RunInvariant.PassedQueuesEmpty | testcase.c:37-45 | A test case is reported as PASSED only if its verdict was PASSED and every open queue was empty. |
| RunInvariant.ProcessFits | packet.c:588-613 | A packet statement in a passing test case shows only what it may: it sends a well built packet, or reads one it accepts, and fails the test case exactly on a mismatch or a timeout. |
| RunInvariant.ProgramLegal | edpat.c:300-303 | Every run, for all files, traffic and answers from outside, shows a legal history, and ends with nothing left to report. |
| RunInvariant.ProgramReports | testcase.c:133-140 | Exactly-once reporting over whole runs: the reports are those of the accepted test cases in order, after one with an empty name exactly when something gave a verdict before the first. |
| RunInvariant.ProgramPassed | edpat.c:80-157 | Soundness of PASSED over whole runs: between the beginning of a test case and its PASSED report every statement was expanded, none passed over, all ran with SUCCESS and did what such a run does, every include entered its file and read its statements, every packet read was accepted, nothing unexpected was found. |
| RunInvariant.ProgramCopies | packet.c:404-421 | Over whole runs: once a `<` has run in a test case, each `?k` of every later packet sent in it is byte k of the packet matched last in that test case, within the length kept of it. |
| RunInvariant.ReceivedMatches | edpat.c:94-156 | While a test case is PASSED, a `<` that has run in it has left a packet matched. |
| RunInvariant.MatchAccepted | packet.c:569-569 | The packet matched last is one its statement accepts. |
| Trace.PassedIsSound | edpat.c:94-156 | In any legal history a PASSED report has nothing that speaks against it since its test case began. |
| Trace.GoodIsPassed | edpat.c:94-156 | And the converse: while nothing has spoken against a test case its verdict is PASSED. |
| Trace.EventsHold | edpat.c:103-156 | A statement that ran with SUCCESS did what it says right before: `@` accepted its name, `$` stored its assignment, `>` sent and `<` read a packet of its own port and body. |
| Trace.HaltedStays | edpat.c:92-101 | Monotonicity: from FAILED or SKIPPED until the next accepted `@` the verdict is never PASSED or UNKNOWN, nothing is sent or read for the test case, no variable changes, no file is opened. |
| Trace.UnknownIsFirst | edpat.c:117-125 | UNKNOWN is never entered again. |
| Trace.IdleVerdict | testcase.c:137-140 | After the first accepted name there is always a verdict; before it the name is empty. |
| Trace.ReportsFollow | testcase.c:133-140 | In any legal history the reports, with the one still due, are those of the accepted test cases in order. |
| Inlining.RunRelated | edpat.c:80-157 | Running the same statements at two depths from states that agree but for FAILED and SKIPPED leaves such states, with the same variables, ports, queues, traffic and return value. |
| Inlining.ReturnMeansHalted | edpat.c:78-159 | TestScriptProcess returns something other than SUCCESS for a file it could open only when the verdict is FAILED or SKIPPED. |
| Inlining.IncludeStep | scripts.c:221-269 | One include is the statements of its file run in place. |
| Inlining.IncludeIsInlining | scripts.c:221-269 | Include equals inlining for the whole rest of a script, when all opens succeed: same variables, device, queues, statements executed, traffic and reports, taking FAILED and SKIPPED for one. |
| Inlining.RelatedShow | edpat.c:105-110 | Such runs send the same packets and report and accept the same names in the same order. |
| Inlining.FailedSurvives | edpat.c:85-156 | For every file that ends FAILED: after its include the verdict is still FAILED, and not SKIPPED, if and only if the last statement of the file was executed, or was passed over with exactly one substitution. |
| Inlining.LastUnexpanded | edpat.c:85-90 | A file whose last statement cannot be expanded returns -1, and its include leaves SKIPPED. |
| Inlining.SkippedLastStatement | edpat.c:85-156 | If the last statement of an included file is passed over in a FAILED test case, the verdict after the include is FAILED exactly when that statement had one substitution, and SKIPPED otherwise. |
| StatementEvents.PlainShows | edpat.c:103-152 | A statement that is no include shows only events of its kind: packets sent for `>`, read for `<`, variables set for `$`, test cases accepted for `@`. |
| Nesting.StepNests | edpat.c:80-157 | Each statement that is read ends by being passed over or having run, inside the include statements around it, at the depth of their number. |
| Nesting.ProgramNests | edpat.c:62-160 | Every whole run is properly nested and leaves no statement half done; each packet, variable, test case and report belongs to the statement being executed, but for the last cleanup. |
| Coverage.StepReads | edpat.c:80-157 | One round reads one statement at its depth and none at a smaller depth, whatever the files it includes do. |
| Coverage.RunReads | edpat.c:80-157 | Running a list of statements reads exactly these at their depth, in order. |
| Coverage.ProgramReads | edpat.c:300-303 | A whole run reads each statement of the script once, in order, past all failures and includes. |
| Coverage.ProgramFiles | scripts.c:221-269 | Each include that ran with SUCCESS entered its file right behind the include, and what was read one level deeper since then are the statements of the file, each once and in order. |
| Conservation.ProcessTaken | packet.c:475-500 | What a packet statement shows as read is what left the queue, and nothing else left any queue. |
| Conservation.FileBooks | edpat.c:62-160 | Over every file the packets read from a port in the history are those taken from its queue. |
| Conservation.ProgramConserves | EthPortIO.c:246-306 | Conservation over whole runs under every interleaving: for each port, the frames of the ticks since it was opened that are for it and not filtered, less those dropped, are, in order, the packets the run compared or found unexpected, followed by those still queued; the queue never exceeds its capacity, the port is a bounded queue fed tick by tick, and when there is room for all nothing is dropped. |
| Visits.ProgramVisits | edpat.c:80-157 | Every packet, variable, test case and report of a run is shown by a statement executed in a state of that run, with the books of all ports in order there; only the last cleanup comes behind the script. |
| PassedReports.PassedReadsAll | testcase.c:37-45 | When PASSED is reported, every open queue was empty, and all that any queue had taken in since its port was opened had been read by the statements before the report. |
| Sending.ProgramSends | packet.c:456-459 | Every packet that a run shows as sent has left: its statement had its port open, and the outside answered the call with success, which is the tick of the run that passed then. |
| Sending.SendRefused | EthPortIO.c:815-822 | When sendto fails no packet is shown as sent, the statement returns FAILED (0) and the test case is SKIPPED. |
| Sending.SendTooShort | EthPortIO.c:800-807 | With at most 13 bytes the statement returns NOTFOUND (-1), the outside is not asked, and the test case is SKIPPED. |
| Sending.SendUnbuilt | packet.c:408-421 | A `?k` beyond the bytes received makes the statement return FAILED, and nothing is sent. |
| Sending.OpenRefused | packet.c:169-171 | When a port cannot be opened the statement returns FAILED, no port is added, and the test case is SKIPPED. |
| Sending.BadBytesOpen | packet.c:168-171 | The port is opened before the bytes are read: a statement refused for its bytes returns FAILED and leaves its port open. |
| Sending.SyntaxOnly | edpat.c:126-136 | With `-s` a packet statement succeeds, keeps PASSED, and changes no port, queue or buffer. |
| Sending.SyntaxOnlyBegins | edpat.c:117-136 | The first packet statement begins a test case also with `-s`. |
| Sending.TimeoutKeepsBuffer | packet.c:480-497 | A timeout fails the test case, returns SUCCESS, and leaves BytesInRecvPkt at 9000. |
| Sending.MismatchKeepsPacket | packet.c:519-541 | A packet that does not match stays in RecvPkt with its whole length. |
| Arrivals.ArriveAllAt | EthPortIO.c:246-306 | The frames of a tick give each port those that are for it, not empty and not filtered, as far as its queue has room: the first ones go in, in order, and the others are lost. |
| Arrivals.ElapseFed | EthPortIO.c:246-306 | A tick keeps every port a bounded queue that was fed, tick by tick, what came in for it since it was opened. |
| Arrivals.ReadFed | EthPortIO.c:637-670 | So does a read. |
| Arrivals.OpenFed | EthPortIO.c:358-587 | So does opening a port, which is fed from the next tick on. |
| Arrivals.NothingLost | EthPortIO.c:292-304 | A queue offered no more than it can hold loses nothing, however reads and arrivals are mixed. |
| LoopbackTest.EchoDecides | edpat.c:114-137 | End to end: a send statement and then the statement that expects its packet, on any open ports; both run with SUCCESS, the built packet goes out, and the test case is PASSED if what came in has at most 60 bytes and agrees with the bytes given as far as both go, or has the length and all bytes given; otherwise FAILED. |
| LoopbackTest.LoopbackPasses | packet.c:501-571 | On a wire that returns what is sent the test stays PASSED. |
| LoopbackTest.ReceiveRuns | packet.c:475-572 | The first frame that comes in during a read decides a `<` statement: matched or mismatched, always with SUCCESS. |
| PacketEngine.Engine.PacketProcess | packet.c:588-613 | The engine on its static arrays does what the interpreter's PacketProcess says: buffers, ports, verdict, return value, and what is shown. |
| PacketEngine.Engine.PacketRead | packet.c:122-320 | Success exactly when the port opens and every token is well formed; then the arrays hold the statement. The port is opened before the tokens are looked at. |
| PacketEngine.Engine.ReadBody | packet.c:177-303 | The loop over the tokens fills the byte, mask and checksum arrays with the body the tokens stand for. |
| PacketEngine.ParseToken | packet.c:181-301 | What each kind of token means, with the refusals of `*` in a send and `?` in a receive statement. |
| PacketEngine.Engine.FillPacket | packet.c:388-439 | The first loop of packetSend, in place, with its failures. |
| PacketEngine.Engine.SendPacket | packet.c:382-460 | The packet with its checksums goes to the port; nothing is shown when that fails. |
| PacketEngine.Engine.Compare | packet.c:501-568 | The comparing loop and the length check accept exactly the packets the statement accepts. |
| PacketEngine.Engine.Judge | packet.c:501-572 | A packet not accepted fails the test case; of an accepted one the length in common is kept. |
| PacketEngine.Engine.ReceivePacket | packet.c:475-572 | A timeout fails the test case and still returns SUCCESS; a packet is judged. |
| PacketEngine.CheckUnexpectedPackets | packet.c:84-106 | The drain ends under all arrivals; each packet found is shown in order, and one is enough for FAILED. |
| PacketSpec.TokenPlace | packet.c:177-303 | Each token of an accepted statement stands for its cells at the place where the tokens before it end. |
| PacketSpec.BodyWidth | packet.c:177-303 | An accepted statement has one byte for each byte token and two for each `&`. |
| PacketSpec.FieldsMatchCells | packet.c:204-213 | The checksum fields are exactly the checksum halves of the packet, in order and apart. |
| PacketSpec.RangeTokenNames | packet.c:183-216 | `&s-e` asks for the checksum of bytes s to e. |
| PacketSpec.CopyTokenNames | packet.c:244-274 | `?n` copies byte n modulo 256: it names the byte it says if and only if n is less than 256. |
| PacketSpec.BareQuestionMark | packet.c:244-274 | A `?` with a space behind it is not refused but copies byte 0. |
| PacketSpec.ReceiveCells | packet.c:217-233 | A statement to receive holds bytes and wildcards only, so the failing default of the comparing loop is never taken. |
| PacketSpec.FillCellsIs | packet.c:388-439 | The fill succeeds if and only if each `?k` is below the number of bytes received; each position then holds what its token says, a checksum half what the static buffer held. |
| PacketSpec.BuildCarries | packet.c:388-454 | Build end to end: the packet has the length of its statement, every given and copied byte at its position, and the buffer behind it is unchanged. |
| PacketSpec.SentChecks | packet.c:426-454 | The checksum of a packet that is sent is right if and only if the static buffer held zero in the field before, or 0xFFFF with a rest of the range that is not all zero. |
| Untouched.ProgramChecks | packet.c:384-454 | Over whole runs: an even range that owns its field and gets no later one checks in every packet sent, when no `>` statement that ran before was long enough to reach the field. |
| PacketSpec.Resend | packet.c:384-454 | A statement with one checksum sent twice: the second packet checks if and only if the rest of the range sums to a nonzero multiple of 0xFFFF. |
| PacketSpec.ResendBreaks | packet.c:426-431 | A packet of fourteen bytes whose second sending carries a wrong checksum. |
| Witnesses.ResentReads | packet.c:183-216 | The statement `>p &0-13` with twelve bytes `01` is read as that packet. |
| Witnesses.ResentRun | packet.c:384-454 | The script that sends this statement twice: its whole run, which is reported PASSED, sends a packet with a right checksum and then one with a wrong checksum. |
| Witnesses.OddReads | packet.c:183-216 | The statement `>p &0-12` with twelve bytes `01` asks for the checksum of an odd range with a byte 01 behind it. |
| Witnesses.OddRun | packet.c:347-354 | The run of the script with this statement is reported PASSED and sends a packet whose range does not check. |
| Witnesses.IncludeChangesVerdict | edpat.c:85-156 | A script of `#f`, with `<p 00` twice in f, is reported SKIPPED although f ends FAILED; f run as the script is reported FAILED. |
| PacketSpec.Loopback | packet.c:501-571 | Whatever packet a statement sends, the statement with `*` for `?k` and `* *` for `&` accepts it. |
| PacketSpec.HexStatementReads | packet.c:276-300 | A packet written as two hexadecimal digits a byte is read as that packet. |
| PacketSpec.HexStatementBuilds | packet.c:388-454 | Such a statement sends that packet whatever was sent or received before. |
| PacketSpec.AcceptsExactly | packet.c:513-571 | Such a statement accepts, of packets over 60 bytes, that one and no other. |
| PacketSpec.AcceptsExpected | packet.c:501-568 | A statement accepts a packet of at most 60 bytes exactly when the bytes it gives agree as far as both go, whatever the lengths, and a longer one exactly when the lengths are equal and all bytes given agree. |
| PacketSpec.PaddedAccepted | packet.c:549-552 | A packet padded up to 60 bytes that begins with the bytes given is accepted. |
| PacketSpec.LongerRefused | packet.c:552-567 | A packet over 60 bytes of another length is refused. |
| PacketTokens.TwoDigits | packet.c:276-300 | Two hexadecimal digits, each in either case, read as their byte. |
| PacketTokens.OneDigit | packet.c:276-300 | So does one digit. |
| PacketTokens.PrefixedDigits | packet.c:278-278 | `0x` or `0X` and two digits read as their byte. |
| PacketTokens.NoDigitRefused | packet.c:279-297 | A token with any other character is refused, but for a sign in front and the `x` of `0x`. |
| PacketTokens.Wildcards | packet.c:217-233 | `*`, and `&` where a packet is received, stand for one byte of any value; `*` is refused in a send. |
| PacketTokens.CopyRefused | packet.c:236-270 | `?` is refused in a receive, and in a send with anything but a number behind it. |
| PacketTokens.CopyReads | packet.c:244-274 | `?n` with n below 256 copies byte n. |
| PacketTokens.NoStart | packet.c:194-198 | A range whose start is no number starts at 0. |
| PacketTokens.NoBytesRefused | packet.c:305-309 | A statement with a port and nothing else is refused. |
| PacketTokens.BadRefuses | packet.c:279-297 | One token that is refused makes the statement refused. |
| Numbers.HexRoundTrip | packet.c:276-300 | Two hexadecimal digits are read back as their byte. |
| Numbers.DecimalReads | packet.c:194-199 | A decimal number is read back whole up to the largest long. |
| Checksum.DeferredCarry | packet.c:347-359 | The sum with deferred carries is the word by word sum with end-around carry of section 1 of RFC 1071. |
| Checksum.CanonMod | packet.c:357-359 | Folding keeps the sum modulo 65535 and gives zero only for zero. |
| Checksum.TwoFolds | packet.c:357-359 | For a 32-bit sum two folds are enough. |
| Checksum.SumWords | packet.c:343-354 | The adding loop and its padding line, without overflow of 32 bits for buffers up to MAX_PKT_SIZE. |
| Checksum.FoldCarries | packet.c:357-359 | The folding loop, at most two rounds, gives the folded sum. |
| Checksum.CheckSum | packet.c:337-366 | For an even range check_sum is the complement of the RFC 1071 sum; a reversed range gives 0. |
| Checksum.StoredChecks | packet.c:449-453 | Storing one checksum makes its range check if and only if the field held zero, or 0xFFFF with a rest that is not all zero. |
| Checksum.FillChecks | packet.c:448-454 | After the loop over any number of ranges, nested or not, a range that owns its field and gets no later field checks if and only if its field was ready for it. |
| Checksum.FillApart | packet.c:448-454 | A field outside its even range ends up with the complement of the sum of the range in the final packet, when no field is written inside the range at or after its turn, whatever it held before. |
| Checksum.FillOutside | packet.c:448-454 | Bytes outside the fields are unchanged. |
| Checksum.OddRange | packet.c:347-354 | For an odd range check_sum is the RFC 1071 checksum if and only if the two bytes behind the range are zero, or are 0xFF with a range that is not all zero. |
| Checksum.OddStoredChecks | packet.c:347-354 | An odd range that owns its field, in any buffer, checks after the store if and only if what the field held and the two bytes behind the range add up to zero, or to a multiple of 65535 with a rest that is not all zero. |
| Checksum.OddFillChecks | packet.c:448-454 | The same after the loop over all ranges, for an odd range that owns its field and gets no later one, with the buffer as it is when its turn comes. |
| Checksum.FillChecksums | packet.c:448-454 | The loop over cs_arr in place is the filling that the lemmas above are about. |
| Ports.PortTable.ReceiverPthreadFunc | EthPortIO.c:228-307 | One frame: empty or filtered ones are dropped, others queued if there is room. |
| Ports.PortTable.ReceiverThreads | EthPortIO.c:246-306 | All frames up to the next call to the outside, in order. |
| Ports.PortTable.EthPortIdxFindByName | EthPortIO.c:63-74 | The first port of that name, or NOTFOUND. |
| Ports.PortTable.EthPortOpen | EthPortIO.c:358-587 | A port that is open is found; else one is appended if the outside allows it. |
| Ports.PortTable.EthPortSend | EthPortIO.c:783-830 | NOTFOUND for a port not open or less than 14 bytes, else what sendto says. |
| Ports.PortTable.EthPortReceive | EthPortIO.c:686-714 | The first packet of the queue of that port, or a timeout. |
| Ports.PortTable.EthPortRead | EthPortIO.c:637-670 | Takes the first packet of one queue, or times out and takes none. |
| Ports.PortTable.EthPortReceiveAny | EthPortIO.c:734-765 | The sweep over all ports in order, up to the first that has a packet. |
| Ports.ReceiveAnyWeight | EthPortIO.c:734-765 | Each sweep that finds a packet leaves fewer packets queued or to come, so every drain ends. |
| Ports.NothingFound | packet.c:91-104 | A drain that finds nothing met every queue empty, whatever arrived meanwhile. |
| Ports.QuietDrain | EthPortIO.c:842-855 | With no more arrivals a drain finds exactly what is queued, port after port and in order, and leaves every queue empty. |
| Ports.DeliverConserves | EthPortIO.c:285-304 | An arrival keeps the books of its port: what was taken in is what was read and what is queued; a packet that is not filtered is lost exactly when the queue is full. |
| Ports.ElapseConserves | EthPortIO.c:246-306 | So do all arrivals of a while, and nothing is read meanwhile. |
| Ports.ReadPortConserves | EthPortIO.c:637-670 | A read takes exactly the packet it returns, from its own port. |
| ScriptReader.ScriptFile.ReadStatement | scripts.c:54-123 | The lexer, chunk by chunk with its carried state, returns the first statement and leaves the text behind it. |
| ScriptLayout.ReadIsScan | scripts.c:64-118 | For lines of at most 199 characters with the newline the two loops are one pass that drops comments, turns control characters into spaces, joins spaces and cuts at `;`. |
| ScriptLayout.LayoutInvariance | scripts.c:64-118 | Any texts with any gaps of blanks, control characters, line breaks and comments between the words, and any rest of a line behind a `;`, are read as the statements they mean and then as what stands behind them, which is nothing for blank lines and comments. |
| ScriptLayout.ChunkIs | scripts.c:64-64 | One fgets takes a line with its newline, or the first 199 characters of a longer one. |
| ScriptLayout.LongCommentResumes | scripts.c:64-86 | What stands behind the first 199 characters of a comment is read as text. |
| ScriptLayout.LastStatement | scripts.c:87-122 | The last statement of a file needs no newline behind its semicolon, and no semicolon. |
| ScriptLayout.StatementsNormal | scripts.c:68-117 | Every statement of every text has no control character, `!`, `;`, leading or double space. |
| ScriptLayout.NormalIsJoin | scripts.c:98-116 | A statement in normal form is its words with one space between them and at most one behind. |
| ScriptLayout.RoundTrip | scripts.c:54-123 | Statements in normal form with words of at most 197 characters, written down one word a line, are read back as they were. |
| Expansion.ScriptSubstituteVariables | scripts.c:312-379 | The program's recursive substitution ends, and is Expand with -1 for its failure. |
| Expansion.SubstituteOnce | scripts.c:321-371 | The pointer-walking loop is one left-to-right pass. |
| Expansion.NextVariable | scripts.c:330-363 | Finds the next `$`, its name, and the place to go on. |
| Expansion.OnePassClean | scripts.c:331-371 | Since no stored value holds a `$`, one pass leaves none. |
| Expansion.ExpandIsOnePass | scripts.c:372-377 | The rescan changes nothing and cannot fail. |
| Expansion.ExpandIsFinal | scripts.c:312-379 | After success no `$` is left behind the command character, which is kept, and expanding again changes nothing. |
| Expansion.ExpandTemplate | scripts.c:321-378 | Expansion fails exactly when some name is undefined, keeps all other text, and puts each value and a space for its variable. |
| Expansion.TemplateOfText | scripts.c:321-378 | Every text whose names follow `$` directly is such a template. |
| Expansion.NoNameFails | scripts.c:341-346 | A `$` with nothing but spaces behind it fails. |
| SpacedNames.StatementExpands | scripts.c:321-378 | Every statement the lexer delivers has only direct names, or cannot be expanded, or is cut behind the first variable that has a space between `$` and name. |
| SpacedNames.SpacedEnds | scripts.c:341-368 | With such a space everything behind the name is lost, whatever it is. |
| SpacedNames.SpaceHarmless | scripts.c:341-368 | The space makes no difference if and only if nothing but the end, or one space and the end, follows the name. |
| SpacedNames.NormalBlanks | scripts.c:98-109 | A statement in normal form has at most one space behind a `$`. |
| SpacedNames.BytesLost | scripts.c:341-368 | With P=eth1 the statement `>$ P 01 02` is expanded to `>eth1 `: its bytes are lost. |
| Witnesses.LosingRun | scripts.c:341-368 | The run of the script `$P=eth1`, `>$ P 01 02` sends nothing and is reported SKIPPED. |
| Expansion.EagerBinding | variable.c:44-108 | `$b=$a` binds b to the value of that moment: setting a later changes no text that names b only. |
| Variables.VarTable.VariableStoreValue | variable.c:44-108 | The table stands for a map from trimmed names to trimmed values without `$`; after a store it is that map updated at the trimmed name, or unchanged when there is no `=` or no room. |
| Variables.VarTable.SetEntry | variable.c:72-107 | The search overwrites its own key only, or appends if fewer than 99 entries are there. |
| Variables.VarTable.VariableGetValue | variable.c:121-132 | The search is lookup in the map. |
| Variables.VarTable.constructor | variable.c:72-107 | The empty table is the empty map. |
| Variables.SplitAtEquals | variable.c:51-70 | Splitting at the first `=` and trimming both halves where they stand. |
| Variables.AssignmentClean | variable.c:51-70 | What is stored is trimmed and holds no `$` when the statement held none, and the name holds no `=`. |
| Variables.AssignmentLayout | variable.c:69-70 | Spaces around name and value do not matter. |
| Variables.StoredThenRead | variable.c:44-108 | A stored trimmed value is what lookup returns, when the key exists or there is room. |
| Variables.TableMapKeys | variable.c:124-130 | A name is in the map exactly when it is in the table. |
| Variables.TableMapAt | variable.c:124-130 | With distinct names an entry is its own lookup. |
| Variables.TableMapSize | variable.c:92-98 | With distinct names the number of entries is the size of the map. |
| Variables.TableMapUpdate | variable.c:75-89 | Overwriting one entry is updating one key. |
| Variables.TrimStr | utils.c:29-56 | Trims the string in place and touches nothing outside it. |
| Text.TrimIsUnique | utils.c:29-56 | Trimming gives the one trimmed part with only spaces around it. |

## Left out

- Sockets, `ioctl`, message queues and threads as the system has them, the clock, and read errors
  other than a timeout: opening and sending succeed or fail as the tick says, and a read takes a
  packet or times out. The receive buffer is taken to be as large as a message.
- EthPortRead: a buffer smaller than the message size and an error other than a timeout, both FAILED in the
  program, do not occur in the model.
- EthPortReceive: passes such an error on, and so cannot fail here other than by a timeout.
- EthPortReceiveAny: such an error ends its sweep, and with it the drain, early; here it never does.
- ReceivePacket: FAILED for such an error (packet.c:498) is left out with it.
- The fields of the packet filter and the address check of promiscuous mode: a predicate `accepts` of
  the configuration, any predicate, stands for both, and for the
  limit of the queue on the size of one message, above which mq_send refuses a frame with room left.
- print.c but for the reports, the command line, EthPortCloseAll, line numbers and the backtrace.
- EthPortClearBuf as a method: it is the sweep of the drain without the reports.
- The sizes of the C buffers for statements and names and the number of ports: statements may be of
  any length and ports of any number. Where the program would leave its packet arrays, that is with more
  than 9000 bytes, more than ten checksums or a range outside the buffer, and where it would follow a
  null pointer, that is for `&` without `-`, the model refuses the statement.
- The scan that looks one position past the terminator when a variable ends the statement: nothing
  remains there, as the guard behind the loop says.
- SpecifiedPktMask with values that packetRead never stores: a statement to receive has none of them.
- LayoutInvariance: lines must fit one chunk of fgets, 199 characters with the newline; on longer lines a
  comment or a dropped rest of a line goes on as text. The same holds for ReadIsScan. ReadStatement
  and StatementsNormal hold for all lines.
- RoundTrip: words of at most 197 characters, so that each fits a line with its `;`.
- ProgramCopies: is about test cases in which a `<` has run; before that `?k` copies what RecvPkt
  holds from earlier test cases or, after a timeout, from earlier packets, as FillCellsIs says.
- FillChecks: is about ranges of an even number of bytes that own their field at an even offset;
  OddFillChecks is about odd ranges that do, FillApart about even ranges that do not hold their field. A
  field at an odd offset of its range is not covered.
- IncludeIsInlining: needs every file below the include to open, since one level more may reach the
  depth limit.
- LoopbackPasses: the ports are open already, and nothing else arrives between the two statements.
- File contents do not change during a run.
