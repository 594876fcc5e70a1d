/** packet.c as functions: what a packet statement says (packetRead), the packet a send
    statement builds (packetSend) and the packets a receive statement accepts
    (packetReceive). */
module PacketSpec {
  import opened Text
  import opened Checksum
  import opened Numbers

  const MAX_ETH_PORT_NAME_LEN := 20
  const MAX_CS_SIZE := 10

  // ---------- Reading a statement ----------

  /** A byte given in hexadecimal (MASK_EXACT), a byte not compared (MASK_SKIP), a byte of the
      packet received last (a mask that is no less than 0), half of a checksum (MASK_CS). */
  datatype Cell = Exact(data: byte) | Any | Copy(k: byte) | Half

  datatype Op = Send | Receive

  datatype Token = Bad | One(cell: Cell) | Sum(start: uint32, end: uint32)

  /** The range behind `&`. Without a `-` the token is refused here: the program follows a null
      pointer. */
  function RangeToken(range: string): Token {
    var dash := IndexOf(range, '-');
    if dash == |range| then Bad
    else Sum(ToUint32(Strtol(range[..dash], 10).value), ToUint32(Strtol(range[dash + 1..], 10).value))
  }

  /** The number behind `?`, taken modulo 256; a missing number is 0. */
  function CopyToken(digits: string): Token {
    var n := Strtol(digits, 10);
    if n.used == |digits| then One(Copy(ToByte(n.value))) else Bad
  }

  /** A byte in hexadecimal, taken modulo 256. */
  function ByteToken(token: string): Token {
    var n := Strtol(token, 16);
    if n.used == |token| && n.used > 0 then One(Exact(ToByte(n.value))) else Bad
  }

  /** One token of a statement. */
  function ReadToken(op: Op, token: string): Token
    requires token != ""
  {
    if token[0] == '&' && op == Send then RangeToken(token[1..])
    else if token[0] == '*' || token[0] == '&' then (if op == Receive then One(Any) else Bad)
    else if token[0] == '?' then (if op == Send then CopyToken(token[1..]) else Bad)
    else ByteToken(token)
  }

  /** `?n` stands for byte n modulo 256 of the packet received last: it names the byte it says
      exactly when n is less than 256. */
  lemma CopyTokenNames(n: nat)
    requires n <= LONG_MAX
    ensures CopyToken(Decimal(n)) == One(Copy(n % 0x100))
    ensures CopyToken(Decimal(n)).cell.k == n <==> n < 0x100
  {
    hide CopyToken, Strtol;
    DecimalReads(n);
    CopyTokenOf(Decimal(n), n);
  }

  lemma CopyTokenOf(digits: string, n: nat)
    requires Strtol(digits, 10) == Number(n, |digits|)
    ensures CopyToken(digits) == One(Copy(n % 0x100))
  {
  }

  /** A `?` with a space behind it, as README.md writes it, stands for byte 0. */
  lemma BareQuestionMark()
    ensures ReadToken(Send, "?") == One(Copy(0))
  {
    assert "?"[1..] == "";
  }

  /** `&s-e` asks for the checksum of the bytes s to e. */
  lemma RangeTokenNames(s: uint32, e: uint32)
    ensures RangeToken(Decimal(s) + ['-'] + Decimal(e)) == Sum(s, e)
  {
    DecimalReads(s);
    DecimalReads(e);
    DecimalNoDash(s);
    RangeParts(Decimal(s), Decimal(e), s, e);
  }

  lemma DecimalNoDash(n: nat)
    ensures '-' !in Decimal(n)
  {
    DecimalDigits(n);
  }

  lemma RangeParts(a: string, b: string, s: uint32, e: uint32)
    requires '-' !in a && Strtol(a, 10).value == s && Strtol(b, 10).value == e
    ensures RangeToken(a + ['-'] + b) == Sum(s, e)
  {
    IndexOfFirst(a, '-', b);
    DashParts(a, b);
  }

  lemma DashParts(a: string, b: string)
    ensures (a + ['-'] + b)[..|a|] == a && (a + ['-'] + b)[|a| + 1..] == b
  {
  }

  datatype Body = Body(cells: seq<Cell>, fields: seq<Field>)

  function Width(t: Token): nat {
    match t
    case Bad => 0
    case One(_) => 1
    case Sum(_, _) => 2
  }

  /** What the token at byte position `at` puts in front of what the other tokens give. */
  function Extend(t: Token, at: nat, more: Option<Body>): Option<Body> {
    if t.Bad? || more.None? then None
    else match t
         case One(c) => Some(Body([c] + more.value.cells, more.value.fields))
         case Sum(s, e) => Some(Body([Half, Half] + more.value.cells, [Field(at, s, e)] + more.value.fields))
  }

  function Parse(op: Op, tokens: seq<string>): (ts: seq<Token>)
    requires AllWords(tokens)
    ensures |ts| == |tokens|
  {
    if tokens == [] then [] else [ReadToken(op, tokens[0])] + Parse(op, tokens[1..])
  }

  lemma {:induction false} ParseAt(op: Op, tokens: seq<string>, i: nat)
    requires AllWords(tokens) && i < |tokens|
    ensures Parse(op, tokens)[i] == ReadToken(op, tokens[i])
  {
    if i > 0 {
      ParseAt(op, tokens[1..], i - 1);
    }
  }

  /** The loop over the tokens, from byte position `at` on. The guard stands for the size of
      the program's buffers, which it does not check. */
  function Assemble(ts: seq<Token>, at: nat): Option<Body> {
    if ts == [] then Some(Body([], []))
    else Place(ts[0], at, Assemble(ts[1..], at + Width(ts[0])))
  }

  function Place(t: Token, at: nat, more: Option<Body>): Option<Body> {
    if at + Width(t) > MAX_PKT_SIZE then None else Extend(t, at, more)
  }

  function OpOf(c: char): Op {
    if c == '<' then Receive else Send
  }

  /** The port a statement names, if the name is there and short enough. */
  function PortOf(statement: string): Option<string>
    requires statement != ""
  {
    var tokens := Tokens(statement[1..]);
    if tokens != [] && |tokens[0]| < MAX_ETH_PORT_NAME_LEN then Some(tokens[0]) else None
  }

  /** The tokens behind the port name. */
  function BodyTokens(statement: string): seq<Token>
    requires statement != "" && PortOf(statement).Some?
  {
    Parse(OpOf(statement[0]), Tokens(statement[1..])[1..])
  }

  function CheckBody(body: Option<Body>): Option<Body> {
    if body.Some? && body.value.cells != [] && Sound(body.value) then body else None
  }

  function BodyOf(statement: string): Option<Body>
    requires statement != "" && PortOf(statement).Some?
  {
    CheckBody(Assemble(BodyTokens(statement), 0))
  }

  /** At most ten checksums, each over bytes of the buffer: outside this the program leaves
      its arrays. */
  predicate Sound(body: Body) {
    |body.fields| <= MAX_CS_SIZE && FieldsInBuffer(body.fields, MAX_PKT_SIZE)
  }

  function TotalWidth(ts: seq<Token>): nat {
    if ts == [] then 0 else Width(ts[0]) + TotalWidth(ts[1..])
  }

  lemma {:induction false} BodyWidth(ts: seq<Token>, at: nat)
    requires Assemble(ts, at).Some?
    ensures |Assemble(ts, at).value.cells| == TotalWidth(ts)
    ensures ts != [] ==> at + TotalWidth(ts) <= MAX_PKT_SIZE
    decreases ts
  {
    if ts != [] {
      BodyWidth(ts[1..], at + Width(ts[0]));
    }
  }

  /** The token stands at `place` of the body that was read from position `at` on. */
  predicate Stands(t: Token, body: Body, at: nat, place: nat) {
    match t
    case Bad => false
    case One(c) => place < |body.cells| && body.cells[place] == c
    case Sum(s, e) => place + 1 < |body.cells| && body.cells[place] == Half && body.cells[place + 1] == Half
                      && Field(at + place, s, e) in body.fields
  }

  /** Behind one more token in front, a token stands for the same cells further on. */
  lemma StandsExtended(t: Token, front: Token, more: Body, at: nat, place: nat)
    requires !front.Bad? && Stands(t, more, at + Width(front), place)
    ensures Stands(t, Extend(front, at, Some(more)).value, at, Width(front) + place)
  {
    var body := Extend(front, at, Some(more)).value;
    CellsBehind(front, more, at, place);
    if t.Sum? {
      CellsBehind(front, more, at, place + 1);
      assert at + Width(front) + place == at + (Width(front) + place);
      assert Field(at + (Width(front) + place), t.start, t.end) in more.fields;
    }
  }

  lemma CellsBehind(front: Token, more: Body, at: nat, k: nat)
    requires !front.Bad? && k < |more.cells|
    ensures var body := Extend(front, at, Some(more)).value;
            && Width(front) + k < |body.cells| && body.cells[Width(front) + k] == more.cells[k]
            && forall f :: f in more.fields ==> f in body.fields
  {
  }

  lemma AssembleRest(ts: seq<Token>, at: nat)
    requires ts != [] && Assemble(ts, at).Some?
    ensures !ts[0].Bad? && Assemble(ts[1..], at + Width(ts[0])).Some?
    ensures Assemble(ts, at) == Extend(ts[0], at, Assemble(ts[1..], at + Width(ts[0])))
  {
  }

  lemma FirstStands(t: Token, more: Body, at: nat)
    requires !t.Bad?
    ensures Stands(t, Extend(t, at, Some(more)).value, at, 0)
  {
  }

  lemma WidthBehind(ts: seq<Token>, i: nat)
    requires 0 < i <= |ts|
    ensures TotalWidth(ts[..i]) == Width(ts[0]) + TotalWidth(ts[1..][..i - 1])
  {
    assert ts[..i][1..] == ts[1..][..i - 1];
  }

  /** Each token stands for its cells at the place where the tokens before it end. */
  lemma {:induction false} TokenPlace(ts: seq<Token>, at: nat, i: nat)
    requires i < |ts| && Assemble(ts, at).Some?
    ensures Stands(ts[i], Assemble(ts, at).value, at, TotalWidth(ts[..i]))
    decreases ts
  {
    AssembleRest(ts, at);
    var more := Assemble(ts[1..], at + Width(ts[0])).value;
    hide Assemble, Extend, Stands;
    if i == 0 {
      FirstStands(ts[0], more, at);
    } else {
      TokenPlace(ts[1..], at + Width(ts[0]), i - 1);
      WidthBehind(ts, i);
      StandsExtended(ts[i], ts[0], more, at, TotalWidth(ts[1..][..i - 1]));
    }
  }

  /** The fields are exactly the checksum halves of the cells, in order and apart. */
  ghost predicate Matching(body: Body, at: nat) {
    && Disjoint(body.fields)
    && (forall i :: 0 <= i < |body.fields| ==> at <= body.fields[i].pos && body.fields[i].pos + 1 < at + |body.cells|)
    && (forall k :: 0 <= k < |body.cells| ==>
          (body.cells[k].Half? <==> exists i :: 0 <= i < |body.fields| && InField(body.fields[i], at + k)))
  }

  lemma MatchingOne(c: Cell, more: Body, at: nat)
    requires Matching(more, at + 1) && !c.Half?
    ensures Matching(Body([c] + more.cells, more.fields), at)
  {
    var body := Body([c] + more.cells, more.fields);
    forall k | 0 <= k < |body.cells|
      ensures body.cells[k].Half? <==> exists i :: 0 <= i < |body.fields| && InField(body.fields[i], at + k)
    {
      if k > 0 {
        assert body.cells[k] == more.cells[k - 1];
        assert at + 1 + (k - 1) == at + k;
      }
    }
  }

  lemma MatchingSum(f: Field, more: Body, at: nat)
    requires Matching(more, at + 2) && f.pos == at
    ensures Matching(Body([Half, Half] + more.cells, [f] + more.fields), at)
  {
    var body := Body([Half, Half] + more.cells, [f] + more.fields);
    forall k | 0 <= k < |body.cells|
      ensures body.cells[k].Half? <==> exists i :: 0 <= i < |body.fields| && InField(body.fields[i], at + k)
    {
      if k < 2 {
        assert InField(body.fields[0], at + k);
      } else {
        assert body.cells[k] == more.cells[k - 2] && at + 2 + (k - 2) == at + k;
        MatchingShift(f, more.fields, at + k);
      }
    }
  }

  lemma MatchingShift(f: Field, fields: seq<Field>, p: nat)
    requires !InField(f, p)
    ensures (exists i :: 0 <= i < |fields| && InField(fields[i], p))
            <==> (exists i :: 0 <= i < |[f] + fields| && InField(([f] + fields)[i], p))
  {
    if i :| 0 <= i < |fields| && InField(fields[i], p) {
      assert ([f] + fields)[i + 1] == fields[i];
    }
    if i :| 0 <= i < |[f] + fields| && InField(([f] + fields)[i], p) {
      assert fields[i - 1] == ([f] + fields)[i];
    }
  }

  lemma {:induction false} FieldsMatchCells(ts: seq<Token>, at: nat)
    requires forall t :: t in ts ==> !(t.One? && t.cell.Half?)
    requires Assemble(ts, at).Some?
    ensures Matching(Assemble(ts, at).value, at)
    decreases ts
  {
    if ts != [] {
      FieldsMatchCells(ts[1..], at + Width(ts[0]));
      var more := Assemble(ts[1..], at + Width(ts[0])).value;
      match ts[0]
      case One(c) =>
        assert ts[0] in ts;
        MatchingOne(c, more, at);
      case Sum(s, e) => MatchingSum(Field(at, s, e), more, at);
    }
  }

  lemma TokensNoHalf(op: Op, tokens: seq<string>, t: Token)
    requires AllWords(tokens) && t in Parse(op, tokens)
    ensures !(t.One? && t.cell.Half?)
  {
    var i :| 0 <= i < |tokens| && Parse(op, tokens)[i] == t;
    ParseAt(op, tokens, i);
  }

  lemma TokensOfReceive(tokens: seq<string>, t: Token)
    requires AllWords(tokens) && t in Parse(Receive, tokens)
    ensures t.Bad? || (t.One? && (t.cell.Exact? || t.cell.Any?))
  {
    var i :| 0 <= i < |tokens| && Parse(Receive, tokens)[i] == t;
    ParseAt(Receive, tokens, i);
  }

  /** The checksum halves of a statement are where its fields are. */
  lemma BodyMatching(statement: string)
    requires statement != "" && PortOf(statement).Some? && BodyOf(statement).Some?
    ensures Matching(BodyOf(statement).value, 0)
  {
    var ts := BodyTokens(statement);
    forall t | t in ts ensures !(t.One? && t.cell.Half?) {
      TokensNoHalf(OpOf(statement[0]), Tokens(statement[1..])[1..], t);
    }
    FieldsMatchCells(ts, 0);
  }

  lemma {:induction false} OnlyBytesAndWildcards(ts: seq<Token>, at: nat)
    requires Assemble(ts, at).Some?
    requires forall t :: t in ts ==> t.Bad? || (t.One? && (t.cell.Exact? || t.cell.Any?))
    ensures forall c :: c in Assemble(ts, at).value.cells ==> c.Exact? || c.Any?
    decreases ts
  {
    if ts != [] {
      assert ts[0] in ts;
      OnlyBytesAndWildcards(ts[1..], at + 1);
    }
  }

  /** A statement to receive asks only for bytes and wildcards. */
  lemma ReceiveCells(statement: string)
    requires statement != "" && statement[0] == '<'
    requires PortOf(statement).Some? && BodyOf(statement).Some?
    ensures forall c :: c in BodyOf(statement).value.cells ==> c.Exact? || c.Any?
  {
    var ts := BodyTokens(statement);
    forall t | t in ts ensures t.Bad? || (t.One? && (t.cell.Exact? || t.cell.Any?)) {
      TokensOfReceive(Tokens(statement[1..])[1..], t);
    }
    OnlyBytesAndWildcards(ts, 0);
  }

  // ---------- Building a packet ----------

  datatype Filled = Filled(ok: bool, pkt: seq<byte>)

  /** The first loop of packetSend from position `i` on; a checksum half is passed over and
      keeps what the buffer held. */
  function FillCells(cells: seq<Cell>, recv: seq<byte>, nRecv: nat, pkt: seq<byte>, i: nat): (r: Filled)
    requires i <= |cells| <= |pkt| && nRecv <= |recv|
    ensures |r.pkt| == |pkt|
    decreases |cells| - i
  {
    if i == |cells| then Filled(true, pkt)
    else match cells[i]
         case Exact(b) => FillCells(cells, recv, nRecv, pkt[i := b], i + 1)
         case Copy(k) =>
           if k < nRecv then FillCells(cells, recv, nRecv, pkt[i := recv[k]], i + 1)
           else Filled(false, pkt)
         case Half => FillCells(cells, recv, nRecv, pkt, i + 1)
         case Any => Filled(false, pkt)
  }

  predicate Fillable(c: Cell, nRecv: nat) {
    match c
    case Exact(_) => true
    case Copy(k) => k < nRecv
    case Half => true
    case Any => false
  }

  function CellByte(c: Cell, recv: seq<byte>, nRecv: nat, stale: byte): byte
    requires Fillable(c, nRecv) && nRecv <= |recv|
  {
    match c
    case Exact(b) => b
    case Copy(k) => recv[k]
    case Half => stale
  }

  /** The loop succeeds exactly when every cell can be filled, and then each position holds
      what its cell says. */
  lemma {:induction false} FillCellsIs(cells: seq<Cell>, recv: seq<byte>, nRecv: nat, pkt: seq<byte>, i: nat)
    requires i <= |cells| <= |pkt| && nRecv <= |recv|
    ensures var r := FillCells(cells, recv, nRecv, pkt, i);
            && (r.ok <==> forall j :: i <= j < |cells| ==> Fillable(cells[j], nRecv))
            && (r.ok ==> forall j :: i <= j < |cells| ==> r.pkt[j] == CellByte(cells[j], recv, nRecv, pkt[j]))
            && (forall j :: 0 <= j < i || |cells| <= j < |pkt| ==> r.pkt[j] == pkt[j])
    decreases |cells| - i
  {
    if i < |cells| {
      match cells[i]
      case Exact(b) => FillCellsIs(cells, recv, nRecv, pkt[i := b], i + 1);
      case Copy(k) => if k < nRecv { FillCellsIs(cells, recv, nRecv, pkt[i := recv[k]], i + 1); }
      case Half => FillCellsIs(cells, recv, nRecv, pkt, i + 1);
      case Any =>
    }
  }

  datatype Built = Built(ok: bool, buffer: seq<byte>)

  /** packetSend up to the call that sends: the buffer, which the program keeps for the next
      statement, and whether there is a packet to send in it. */
  function Build(body: Body, recv: seq<byte>, nRecv: nat, buffer: seq<byte>): (r: Built)
    requires |body.cells| <= |buffer| == MAX_PKT_SIZE && nRecv <= |recv| && Sound(body)
    ensures |r.buffer| == |buffer|
  {
    var filled := FillCells(body.cells, recv, nRecv, buffer, 0);
    if filled.ok then Built(true, Fill(filled.pkt, body.fields, |body.fields|))
    else Built(false, filled.pkt)
  }

  /** What the packet must look like apart from its checksums. */
  ghost predicate Carries(cells: seq<Cell>, recv: seq<byte>, nRecv: nat, packet: seq<byte>)
    requires nRecv <= |recv|
  {
    && |packet| == |cells|
    && forall j :: 0 <= j < |cells| ==>
         Fillable(cells[j], nRecv) && (!cells[j].Half? ==> packet[j] == CellByte(cells[j], recv, nRecv, packet[j]))
  }

  /** Build succeeds exactly when every `?k` names a byte that was received. The packet then
      holds each given byte and each copied byte at its position, and the buffer outside the
      packet is unchanged. */
  lemma BuildCarries(body: Body, recv: seq<byte>, nRecv: nat, buffer: seq<byte>)
    requires |body.cells| <= |buffer| == MAX_PKT_SIZE && nRecv <= |recv| && Sound(body) && Matching(body, 0)
    ensures var r := Build(body, recv, nRecv, buffer);
            && (r.ok <==> forall j :: 0 <= j < |body.cells| ==> Fillable(body.cells[j], nRecv))
            && (r.ok ==> Carries(body.cells, recv, nRecv, r.buffer[..|body.cells|]))
            && (forall j :: |body.cells| <= j < |buffer| ==> r.buffer[j] == buffer[j])
  {
    FillCellsIs(body.cells, recv, nRecv, buffer, 0);
    var filled := FillCells(body.cells, recv, nRecv, buffer, 0);
    if filled.ok {
      var r := Build(body, recv, nRecv, buffer);
      forall j: nat | j < |buffer| && (j >= |body.cells| || !body.cells[j].Half?)
        ensures r.buffer[j] == filled.pkt[j]
      {
        FillOutside(filled.pkt, body.fields, j);
      }
    }
  }

  /** The checksum of the packet that is sent: a range inside the packet that owns its field
      and gets no later field checks exactly when the buffer of the program held zero in the
      field before the statement, or held 0xFFFF and the rest of the range was not all zero
      when its turn came. */
  lemma SentChecks(body: Body, recv: seq<byte>, nRecv: nat, buffer: seq<byte>, i: nat)
    requires |body.cells| <= |buffer| == MAX_PKT_SIZE && nRecv <= |recv| && Sound(body) && Matching(body, 0)
    requires Build(body, recv, nRecv, buffer).ok
    requires i < |body.fields| && Own(body.fields[i]) && LastInRange(body.fields, i)
    requires body.fields[i].end < |body.cells|
    ensures var f := body.fields[i];
            var turn := Fill(FillCells(body.cells, recv, nRecv, buffer, 0).pkt, body.fields, i);
            Checks(Build(body, recv, nRecv, buffer).buffer[..|body.cells|], f.start, f.end)
            <==> Held(buffer, f) == 0 || (Held(buffer, f) == 0xFFFF && Others(turn, f) != 0)
  {
    var f := body.fields[i];
    var filled := FillCells(body.cells, recv, nRecv, buffer, 0).pkt;
    FillCellsIs(body.cells, recv, nRecv, buffer, 0);
    HeldUntouched(body, i, filled, buffer, recv, nRecv);
    FillChecks(filled, body.fields, i);
    ChecksPrefix(Build(body, recv, nRecv, buffer).buffer, |body.cells|, f);
  }

  lemma HeldUntouched(body: Body, i: nat, filled: seq<byte>, buffer: seq<byte>, recv: seq<byte>, nRecv: nat)
    requires |body.cells| <= |buffer| == |filled| == MAX_PKT_SIZE && nRecv <= |recv| && Sound(body) && Matching(body, 0)
    requires i < |body.fields|
    requires forall j :: 0 <= j < |body.cells| ==> Fillable(body.cells[j], nRecv) && filled[j] == CellByte(body.cells[j], recv, nRecv, buffer[j])
    ensures Held(filled, body.fields[i]) == Held(buffer, body.fields[i])
  {
    var p := body.fields[i].pos;
    assert InField(body.fields[i], 0 + p) && InField(body.fields[i], 0 + (p + 1));
    assert body.cells[p].Half? && body.cells[p + 1].Half?;
  }

  lemma ChecksPrefix(b: seq<byte>, n: nat, f: Field)
    requires Own(f) && FieldInBuffer(f, |b|) && f.end < n <= |b|
    ensures Checks(b[..n], f.start, f.end) <==> Checks(b, f.start, f.end)
  {
    WordSumPrefix(b, n, f.start, Words(f));
    DeferredCarry(b, f.start, Words(f));
    DeferredCarry(b[..n], f.start, Words(f));
  }

  lemma {:induction false} WordSumPrefix(b: seq<byte>, n: nat, start: nat, m: nat)
    requires start + 2 * m <= n <= |b|
    ensures WordSum(b[..n], start, m) == WordSum(b, start, m)
  {
    if m > 0 {
      WordSumPrefix(b, n, start, m - 1);
    }
  }

  /** Filling the cells once more over a packet just built changes nothing: the program does
      not clear the checksum fields in between. */
  lemma RefillSame(body: Body, recv: seq<byte>, nRecv: nat, buffer: seq<byte>)
    requires |body.cells| <= |buffer| == MAX_PKT_SIZE && nRecv <= |recv| && Sound(body) && Matching(body, 0)
    requires Build(body, recv, nRecv, buffer).ok
    ensures var b := Build(body, recv, nRecv, buffer).buffer;
            FillCells(body.cells, recv, nRecv, b, 0) == Filled(true, b)
  {
    var b := Build(body, recv, nRecv, buffer).buffer;
    BuildCarries(body, recv, nRecv, buffer);
    FillCellsIs(body.cells, recv, nRecv, b, 0);
    var again := FillCells(body.cells, recv, nRecv, b, 0);
    assert forall j :: 0 <= j < |body.cells| && !body.cells[j].Half? ==> b[..|body.cells|][j] == b[j];
    assert again.pkt == b;
  }

  /** The same statement sent twice with nothing in between, for a statement with one checksum
      over its own even range: the first packet checks, as its field held zero before, and the
      second checks exactly when the rest of the range adds up to a multiple of 0xFFFF other
      than zero. */
  lemma Resend(body: Body, recv: seq<byte>, nRecv: nat, buffer: seq<byte>, f: Field)
    requires |body.cells| <= |buffer| == MAX_PKT_SIZE && nRecv <= |recv| && Sound(body) && Matching(body, 0)
    requires body.fields == [f] && Own(f) && f.end < |body.cells| && Held(buffer, f) == 0
    requires Build(body, recv, nRecv, buffer).ok
    ensures var first := Build(body, recv, nRecv, buffer).buffer;
            var second := Build(body, recv, nRecv, first).buffer;
            && Build(body, recv, nRecv, first).ok
            && Checks(first[..|body.cells|], f.start, f.end)
            && (Checks(second[..|body.cells|], f.start, f.end) <==> Canon(Others(first, f)) == 0xFFFF)
  {
    var first := Build(body, recv, nRecv, buffer).buffer;
    SentChecks(body, recv, nRecv, buffer, 0);
    RefillSame(body, recv, nRecv, buffer);
    FieldAfterFirst(body, recv, nRecv, buffer, f);
    SentChecks(body, recv, nRecv, first, 0);
    CanonMod(Others(first, f));
  }

  /** After the first packet the field holds the complement of the rest of its range. */
  lemma FieldAfterFirst(body: Body, recv: seq<byte>, nRecv: nat, buffer: seq<byte>, f: Field)
    requires |body.cells| <= |buffer| == MAX_PKT_SIZE && nRecv <= |recv| && Sound(body) && Matching(body, 0)
    requires body.fields == [f] && Own(f) && f.end < |body.cells| && Held(buffer, f) == 0
    requires Build(body, recv, nRecv, buffer).ok
    ensures var first := Build(body, recv, nRecv, buffer).buffer;
            Held(first, f) == 0xFFFF - Canon(Others(first, f))
  {
    var filled := FillCells(body.cells, recv, nRecv, buffer, 0).pkt;
    FillCellsIs(body.cells, recv, nRecv, buffer, 0);
    HeldUntouched(body, 0, filled, buffer, recv, nRecv);
    FillOnce(filled, f);
    StoredHolds(filled, f);
  }

  lemma FillOnce(b: seq<byte>, f: Field)
    requires FieldInBuffer(f, |b|)
    ensures Fill(b, [f], 1) == Stored(b, f)
  {
    assert Fill(b, [f], 0) == b;
  }

  const ONES: seq<Cell> := seq(12, _ => Exact(1))

  /** A checksum over fourteen bytes, with twelve bytes 01 behind it. */
  const SAMPLE: Body := Body([Half, Half] + ONES, [Field(0, 0, 13)])

  lemma {:induction false} SumOfOnes(b: seq<byte>, n: nat)
    requires 2 + 2 * n <= |b| && forall j :: 2 <= j < 2 + 2 * n ==> b[j] == 1
    requires |b| >= 2 && b[0] == 0 && b[1] == 0
    ensures WordSum(b, 0, n + 1) == 0x101 * n
  {
    if n == 0 {
      assert WordSum(b, 0, 0) == 0;
    } else {
      SumOfOnes(b, n - 1);
    }
  }

  lemma SampleMatching()
    ensures Matching(SAMPLE, 0) && Sound(SAMPLE) && Own(SAMPLE.fields[0])
    ensures forall j :: 0 <= j < 14 ==> SAMPLE.cells[j] == if j < 2 then Half else Exact(1)
  {
    assert InField(SAMPLE.fields[0], 0 + 0) && InField(SAMPLE.fields[0], 0 + 1);
  }

  /** A concrete case: sent as the first packet of a run it carries a right checksum, and sent
      once more a wrong one. */
  lemma ResendBreaks(recv: seq<byte>, nRecv: nat)
    requires nRecv <= |recv|
    ensures Sound(SAMPLE) && Matching(SAMPLE, 0)
    ensures var buffer: seq<byte> := seq(MAX_PKT_SIZE, _ => 0);
            var first := Build(SAMPLE, recv, nRecv, buffer);
            var second := Build(SAMPLE, recv, nRecv, first.buffer);
            && first.ok && Checks(first.buffer[..14], 0, 13)
            && second.ok && !Checks(second.buffer[..14], 0, 13)
  {
    var buffer: seq<byte> := seq(MAX_PKT_SIZE, _ => 0);
    SampleMatching();
    SampleOthers(recv, nRecv, buffer);
    Resend(SAMPLE, recv, nRecv, buffer, SAMPLE.fields[0]);
  }

  lemma SampleOthers(recv: seq<byte>, nRecv: nat, buffer: seq<byte>)
    requires nRecv <= |recv| && |buffer| == MAX_PKT_SIZE && buffer[0] == 0 && buffer[1] == 0
    requires Sound(SAMPLE) && Own(SAMPLE.fields[0])
    requires forall j :: 0 <= j < 14 ==> SAMPLE.cells[j] == if j < 2 then Half else Exact(1)
    ensures Build(SAMPLE, recv, nRecv, buffer).ok
    ensures Others(Build(SAMPLE, recv, nRecv, buffer).buffer, SAMPLE.fields[0]) == 0x606
  {
    FillCellsIs(SAMPLE.cells, recv, nRecv, buffer, 0);
    var filled := FillCells(SAMPLE.cells, recv, nRecv, buffer, 0).pkt;
    assert filled[0] == 0 && filled[1] == 0 && forall j :: 2 <= j < 14 ==> filled[j] == 1;
    SumOfOnes(filled, 6);
    FillOnce(filled, SAMPLE.fields[0]);
    StoredHolds(filled, SAMPLE.fields[0]);
  }

  /** What the field holds after its checksum was stored, and that the rest has not changed. */
  lemma StoredHolds(b: seq<byte>, f: Field)
    requires Own(f) && FieldInBuffer(f, |b|)
    ensures Others(Stored(b, f), f) == Others(b, f)
    ensures Held(Stored(b, f), f) == 0xFFFF - Canon(Others(b, f) + Held(b, f))
  {
    SplitSum(b, f, CheckSumValue(b, f.start, f.end));
  }

  // ---------- Accepting a packet ----------

  /** The received packet meets the statement: every byte given agrees as far as both go, and
      beyond the padded minimum the lengths are equal. */
  predicate Accepts(cells: seq<Cell>, packet: seq<byte>) {
    && (forall i :: 0 <= i < |cells| && i < |packet| && cells[i].Exact? ==> packet[i] == cells[i].data)
    && (|packet| > 60 ==> |packet| == |cells|)
  }

  /** What the statement asks for, by the length of the packet: up to 60 bytes, where the packet may be
      padded or cut, the bytes given must agree as far as both go; above that the packet must have
      the length of the statement and agree in every byte given. */
  predicate Expected(cells: seq<Cell>, packet: seq<byte>) {
    if |packet| <= 60 then forall i :: 0 <= i < |cells| && i < |packet| && cells[i].Exact? ==> packet[i] == cells[i].data
    else |packet| == |cells| && forall i :: 0 <= i < |cells| && cells[i].Exact? ==> packet[i] == cells[i].data
  }

  lemma AcceptsExpected(cells: seq<Cell>, packet: seq<byte>)
    ensures Accepts(cells, packet) <==> Expected(cells, packet)
  {
  }

  /** A padded packet: of at most 60 bytes and longer than its statement, it is accepted when it
      begins with the bytes the statement gives. */
  lemma PaddedAccepted(cells: seq<Cell>, packet: seq<byte>)
    requires |cells| <= |packet| <= 60
    requires forall i :: 0 <= i < |cells| && cells[i].Exact? ==> packet[i] == cells[i].data
    ensures Accepts(cells, packet)
  {
    AcceptsExpected(cells, packet);
  }

  /** A packet over 60 bytes of another length than its statement is refused. */
  lemma LongerRefused(cells: seq<Cell>, packet: seq<byte>)
    requires |packet| > 60 && |packet| != |cells|
    ensures !Accepts(cells, packet)
  {
    AcceptsExpected(cells, packet);
  }

  // ---------- What is sent comes back ----------

  /** The statement that expects the packet another one sends: `*` for each `?k`, `* *` for
      each checksum. */
  function EchoWords(tokens: seq<string>): (r: seq<string>)
    requires AllWords(tokens)
    ensures AllWords(r)
  {
    if tokens == [] then []
    else if tokens[0][0] == '?' then ["*"] + EchoWords(tokens[1..])
    else if tokens[0][0] == '&' then ["*"] + (["*"] + EchoWords(tokens[1..]))
    else [tokens[0]] + EchoWords(tokens[1..])
  }

  function EchoTokens(ts: seq<Token>): seq<Token> {
    if ts == [] then []
    else match ts[0]
         case Bad => [Bad] + EchoTokens(ts[1..])
         case One(c) => [One(EchoCell(c))] + EchoTokens(ts[1..])
         case Sum(_, _) => [One(Any)] + ([One(Any)] + EchoTokens(ts[1..]))
  }

  function EchoCell(c: Cell): Cell {
    if c.Exact? then c else Any
  }

  lemma ReadStar()
    ensures ReadToken(Receive, "*") == One(Any)
  {
  }

  lemma EchoOfByte(token: string)
    requires IsWord(token) && token[0] != '?' && token[0] != '&' && !ReadToken(Send, token).Bad?
    ensures ReadToken(Receive, token) == ReadToken(Send, token)
    ensures ReadToken(Send, token).One? && ReadToken(Send, token).cell.Exact?
  {
  }

  lemma EchoOfSpecial(token: string)
    requires IsWord(token) && !ReadToken(Send, token).Bad?
    ensures token[0] == '?' ==> ReadToken(Send, token).One? && ReadToken(Send, token).cell.Copy?
    ensures token[0] == '&' ==> ReadToken(Send, token).Sum?
  {
  }

  lemma {:induction false} EchoParses(tokens: seq<string>)
    requires AllWords(tokens)
    requires forall t :: t in Parse(Send, tokens) ==> !t.Bad?
    ensures Parse(Receive, EchoWords(tokens)) == EchoTokens(Parse(Send, tokens))
    decreases tokens
  {
    if tokens != [] {
      var ts, rest := Parse(Send, tokens), EchoWords(tokens[1..]);
      assert ts[0] in ts && ts[1..] == Parse(Send, tokens[1..]);
      EchoParses(tokens[1..]);
      EchoOfSpecial(tokens[0]);
      ReadStar();
      if tokens[0][0] == '?' {
        ParseCons(Receive, "*", rest);
      } else if tokens[0][0] == '&' {
        ParseCons(Receive, "*", rest);
        ParseCons(Receive, "*", ["*"] + rest);
      } else {
        EchoOfByte(tokens[0]);
        ParseCons(Receive, tokens[0], rest);
      }
    }
  }

  lemma ParseCons(op: Op, token: string, rest: seq<string>)
    requires IsWord(token) && AllWords(rest)
    ensures AllWords([token] + rest)
    ensures Parse(op, [token] + rest) == [ReadToken(op, token)] + Parse(op, rest)
  {
    assert ([token] + rest)[1..] == rest;
  }

  lemma {:induction false} AssembledNotBad(ts: seq<Token>, at: nat)
    requires Assemble(ts, at).Some?
    ensures forall t :: t in ts ==> !t.Bad?
    decreases ts
  {
    if ts != [] {
      AssembledNotBad(ts[1..], at + Width(ts[0]));
    }
  }

  /** The cells of the echo: a byte stays, all else becomes a wildcard. */
  predicate Echoes(echo: Body, sent: Body) {
    && echo.fields == [] && |echo.cells| == |sent.cells|
    && forall j :: 0 <= j < |sent.cells| ==> echo.cells[j] == EchoCell(sent.cells[j])
  }

  lemma AssembleFirst(t: Token, ts: seq<Token>, at: nat)
    ensures Assemble([t] + ts, at) == Place(t, at, Assemble(ts, at + Width(t)))
  {
    assert ([t] + ts)[1..] == ts;
  }

  lemma AssembleCons(t: Token, ts: seq<Token>, at: nat)
    requires at + Width(t) <= MAX_PKT_SIZE
    ensures Assemble([t] + ts, at) == Extend(t, at, Assemble(ts, at + Width(t)))
  {
    assert ([t] + ts)[1..] == ts;
  }

  lemma EchoesExtended(t: Token, at: nat, echo: Body, sent: Body)
    requires !t.Bad? && Echoes(echo, sent)
    ensures Echoes(Body((if t.One? then [EchoCell(t.cell)] else [Any, Any]) + echo.cells, []),
                   Extend(t, at, Some(sent)).value)
  {
  }

  lemma {:induction false} EchoAssembles(ts: seq<Token>, at: nat)
    requires Assemble(ts, at).Some?
    ensures Assemble(EchoTokens(ts), at).Some?
    ensures Echoes(Assemble(EchoTokens(ts), at).value, Assemble(ts, at).value)
    decreases ts
  {
    if ts != [] {
      var rest := EchoTokens(ts[1..]);
      EchoAssembles(ts[1..], at + Width(ts[0]));
      var echo := Assemble(rest, at + Width(ts[0])).value;
      EchoesExtended(ts[0], at, echo, Assemble(ts[1..], at + Width(ts[0])).value);
      EchoCons(ts[0], rest, at, echo);
    }
  }

  lemma EchoCons(t: Token, rest: seq<Token>, at: nat, echo: Body)
    requires !t.Bad? && at + Width(t) <= MAX_PKT_SIZE
    requires Assemble(rest, at + Width(t)) == Some(echo) && echo.fields == []
    ensures var e := if t.One? then [One(EchoCell(t.cell))] + rest else [One(Any)] + ([One(Any)] + rest);
            Assemble(e, at) == Some(Body((if t.One? then [EchoCell(t.cell)] else [Any, Any]) + echo.cells, []))
  {
    if t.One? {
      AssembleCons(One(EchoCell(t.cell)), rest, at);
    } else {
      AssembleCons(One(Any), rest, at + 1);
      AssembleCons(One(Any), [One(Any)] + rest, at);
      assert [Any] + ([Any] + echo.cells) == [Any, Any] + echo.cells;
    }
  }

  lemma EchoAccepts(sent: Body, echo: Body, recv: seq<byte>, nRecv: nat, packet: seq<byte>)
    requires nRecv <= |recv| && Echoes(echo, sent) && Carries(sent.cells, recv, nRecv, packet)
    ensures Accepts(echo.cells, packet)
  {
  }

  /** Loopback: whatever packet a statement sends, the echo of the statement accepts it. */
  lemma Loopback(tokens: seq<string>, sent: Body, recv: seq<byte>, nRecv: nat, buffer: seq<byte>)
    requires AllWords(tokens) && |buffer| == MAX_PKT_SIZE && nRecv <= |recv|
    requires Assemble(Parse(Send, tokens), 0) == Some(sent) && Sound(sent) && |sent.cells| <= MAX_PKT_SIZE
    requires Build(sent, recv, nRecv, buffer).ok
    ensures Assemble(Parse(Receive, EchoWords(tokens)), 0).Some?
    ensures Accepts(Assemble(Parse(Receive, EchoWords(tokens)), 0).value.cells,
                    Build(sent, recv, nRecv, buffer).buffer[..|sent.cells|])
  {
    var ts := Parse(Send, tokens);
    AssembledNotBad(ts, 0);
    forall t | t in ts ensures !(t.One? && t.cell.Half?) {
      TokensNoHalf(Send, tokens, t);
    }
    FieldsMatchCells(ts, 0);
    EchoParses(tokens);
    EchoAssembles(ts, 0);
    BuildCarries(sent, recv, nRecv, buffer);
    EchoAccepts(sent, Assemble(EchoTokens(ts), 0).value, recv, nRecv, Build(sent, recv, nRecv, buffer).buffer[..|sent.cells|]);
  }

  // ---------- A packet written in hexadecimal ----------

  function HexTokens(packet: seq<byte>): (ts: seq<string>)
    ensures |ts| == |packet| && AllWords(ts)
  {
    if packet == [] then [] else [HexByte(packet[0])] + HexTokens(packet[1..])
  }

  function ExactCells(packet: seq<byte>): (cs: seq<Cell>)
    ensures |cs| == |packet| && forall i :: 0 <= i < |packet| ==> cs[i] == Exact(packet[i])
  {
    if packet == [] then [] else [Exact(packet[0])] + ExactCells(packet[1..])
  }

  lemma HexTokenReads(op: Op, b: byte)
    ensures ReadToken(op, HexByte(b)) == One(Exact(b))
  {
    HexRoundTrip(b);
  }

  function ExactTokens(packet: seq<byte>): seq<Token> {
    if packet == [] then [] else [One(Exact(packet[0]))] + ExactTokens(packet[1..])
  }

  lemma {:induction false} HexParses(op: Op, packet: seq<byte>)
    ensures Parse(op, HexTokens(packet)) == ExactTokens(packet)
  {
    if packet != [] {
      HexTokenReads(op, packet[0]);
      HexParses(op, packet[1..]);
      ParseCons(op, HexByte(packet[0]), HexTokens(packet[1..]));
    }
  }

  lemma {:induction false} ExactAssembles(packet: seq<byte>, at: nat)
    requires at + |packet| <= MAX_PKT_SIZE
    ensures Assemble(ExactTokens(packet), at) == Some(Body(ExactCells(packet), []))
    decreases packet
  {
    if packet != [] {
      ExactAssembles(packet[1..], at + 1);
      AssembleCons(One(Exact(packet[0])), ExactTokens(packet[1..]), at);
    }
  }

  /** `>` or `<`, a port and the tokens of a packet, with a space between them. */
  function Statement(c: char, port: string, tokens: seq<string>): string {
    [c] + (Join([port] + tokens) + "")
  }

  lemma HexTokensOf(c: char, port: string, packet: seq<byte>)
    requires IsWord(port)
    ensures Tokens(Statement(c, port, HexTokens(packet))[1..]) == [port] + HexTokens(packet)
  {
    var ws := [port] + HexTokens(packet);
    TokensOfJoin(ws, "");
    assert Statement(c, port, HexTokens(packet))[1..] == Join(ws) + "";
  }

  lemma HexBodyReads(op: Op, packet: seq<byte>)
    requires 0 < |packet| <= MAX_PKT_SIZE
    ensures CheckBody(Assemble(Parse(op, HexTokens(packet)), 0)) == Some(Body(ExactCells(packet), []))
  {
    HexParses(op, packet);
    ExactAssembles(packet, 0);
  }

  lemma BodyOfTokens(statement: string, port: string, rest: seq<string>)
    requires statement != "" && AllWords(rest) && Tokens(statement[1..]) == [port] + rest && |port| < MAX_ETH_PORT_NAME_LEN
    ensures PortOf(statement) == Some(port)
    ensures BodyOf(statement) == CheckBody(Assemble(Parse(OpOf(statement[0]), rest), 0))
  {
    assert Tokens(statement[1..])[1..] == rest;
  }

  /** A packet written in hexadecimal is read as that packet. */
  lemma HexStatementReads(c: char, port: string, packet: seq<byte>)
    requires IsWord(port) && |port| < MAX_ETH_PORT_NAME_LEN
    requires 0 < |packet| <= MAX_PKT_SIZE
    ensures PortOf(Statement(c, port, HexTokens(packet))) == Some(port)
    ensures BodyOf(Statement(c, port, HexTokens(packet))) == Some(Body(ExactCells(packet), []))
  {
    HexTokensOf(c, port, packet);
    BodyOfTokens(Statement(c, port, HexTokens(packet)), port, HexTokens(packet));
    HexBodyReads(OpOf(c), packet);
  }

  lemma ExactMatching(packet: seq<byte>)
    ensures Matching(Body(ExactCells(packet), []), 0)
  {
  }

  /** As a statement to send it builds that packet, whatever was received or sent before. */
  lemma HexStatementBuilds(packet: seq<byte>, recv: seq<byte>, nRecv: nat, buffer: seq<byte>)
    requires |packet| <= MAX_PKT_SIZE == |buffer| && nRecv <= |recv|
    ensures var r := Build(Body(ExactCells(packet), []), recv, nRecv, buffer);
            r.ok && r.buffer[..|packet|] == packet
  {
    ExactMatching(packet);
    BuildCarries(Body(ExactCells(packet), []), recv, nRecv, buffer);
    var r := Build(Body(ExactCells(packet), []), recv, nRecv, buffer);
    ExactFillable(packet, nRecv);
    CarriesExactly(packet, recv, nRecv, r.buffer[..|packet|]);
  }

  lemma ExactFillable(packet: seq<byte>, nRecv: nat)
    ensures forall j :: 0 <= j < |packet| ==> Fillable(ExactCells(packet)[j], nRecv)
  {
  }

  lemma CarriesExactly(packet: seq<byte>, recv: seq<byte>, nRecv: nat, q: seq<byte>)
    requires nRecv <= |recv| && Carries(ExactCells(packet), recv, nRecv, q)
    ensures q == packet
  {
    assert forall j :: 0 <= j < |packet| ==> ExactCells(packet)[j] == Exact(packet[j]) && q[j] == packet[j];
  }

  /** As a statement to receive it accepts, of packets over 60 bytes, that one and no other. */
  lemma AcceptsExactly(packet: seq<byte>)
    ensures forall q: seq<byte> :: |q| > 60 ==> (Accepts(ExactCells(packet), q) <==> q == packet)
  {
    forall q: seq<byte> | |q| > 60 && Accepts(ExactCells(packet), q) ensures q == packet {
      assert forall i :: 0 <= i < |q| ==> ExactCells(packet)[i].Exact? && q[i] == packet[i];
    }
  }
}
