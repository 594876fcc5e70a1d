/** packet.c as the program has it: static arrays filled in place by loops, proved against the
    functions of PacketSpec and Interpreter. */
module PacketEngine {
  import opened Text
  import opened Checksum
  import opened Numbers
  import opened Ports
  import opened PacketSpec
  import opened Trace
  import opened Interpreter

  const MASK_EXACT := -1
  const MASK_SKIP := -2
  const MASK_CS := -3

  /** The globals of edpat.c, and all the program has shown so far. */
  class Globals {
    var currentTestResult: Verdict
    var currentTestCaseId: string
    var shown: seq<Event>

    constructor ()
      ensures currentTestResult == Unknown && currentTestCaseId == "" && shown == []
    {
      currentTestResult := Unknown;
      currentTestCaseId := "";
      shown := [];
    }

    method Show(e: Event)
      modifies this`shown
      ensures shown == old(shown) + [e]
    {
      shown := shown + [e];
    }
  }

  // ---------- The end of a test case ----------

  /** The drain of `net` has found `found`, then `got`, and goes on from `now`. */
  ghost predicate DrainGoesOn(cfg: Config, net: Net, found: seq<Capture>, got: Option<Capture>, now: Net) {
    Drain(cfg, net) ==
    if got.None? then Drained(now, found)
    else Drained(Drain(cfg, now).net, found + [got.value] + Drain(cfg, now).found)
  }

  lemma DrainNext(cfg: Config, net: Net, found: seq<Capture>, c: Capture, now: Net, shown: seq<Event>)
    requires DrainGoesOn(cfg, net, found, Some(c), now)
    ensures DrainGoesOn(cfg, net, found + [c], ReceiveAny(cfg, now, 0).got, ReceiveAny(cfg, now, 0).net)
    ensures shown + Unexpecteds(found + [c]) == (shown + Unexpecteds(found)) + [Unexpected(c.port, c.data)]
  {
    assert (found + [c])[..|found|] == found;
    var r := ReceiveAny(cfg, now, 0);
    if r.got.None? {
      assert found + [c] + [] == found + [c];
    } else {
      assert found + [c] + ([r.got.value] + Drain(cfg, r.net).found) == found + [c] + [r.got.value] + Drain(cfg, r.net).found;
    }
  }

  lemma DrainStart(cfg: Config, net: Net)
    ensures DrainGoesOn(cfg, net, [], ReceiveAny(cfg, net, 0).got, ReceiveAny(cfg, net, 0).net)
  {
    var r := ReceiveAny(cfg, net, 0);
    if r.got.Some? {
      assert [] + [r.got.value] + Drain(cfg, r.net).found == [r.got.value] + Drain(cfg, r.net).found;
    }
  }

  /** CheckUnexpectedPackets: reads the queues until a sweep finds nothing; each packet found
      fails the test case. */
  method CheckUnexpectedPackets(g: Globals, table: PortTable)
    modifies g, table
    ensures var d := Drain(table.cfg, old(table.View()));
            && table.View() == d.net
            && g.shown == old(g.shown) + Unexpecteds(d.found)
            && g.currentTestResult == (if d.found == [] then old(g.currentTestResult) else Failed)
    ensures g.currentTestCaseId == old(g.currentTestCaseId)
  {
    ghost var net := table.View();
    ghost var found: seq<Capture> := [];
    DrainStart(table.cfg, net);
    var got := table.EthPortReceiveAny();
    assert old(g.shown) + Unexpecteds(found) == old(g.shown);
    while got.Some?
      invariant DrainGoesOn(table.cfg, net, found, got, table.View())
      invariant g.currentTestResult == if found == [] then old(g.currentTestResult) else Failed
      invariant g.currentTestCaseId == old(g.currentTestCaseId)
      invariant g.shown == old(g.shown) + Unexpecteds(found)
      decreases Weight(table.View()), got.Some?
    {
      var c := got.value;
      g.currentTestResult := Failed;
      g.Show(Unexpected(c.port, c.data));
      DrainNext(table.cfg, net, found, c, table.View(), old(g.shown));
      found := found + [c];
      ReceiveAnyWeight(table.cfg, table.View(), 0);
      got := table.EthPortReceiveAny();
    }
  }

  // ---------- The statement in the arrays ----------

  /** The cell that SpecifiedPkt[i] and SpecifiedPktMask[i] stand for. */
  function CellOf(data: byte, mask: int): Cell {
    if mask == MASK_EXACT then Exact(data)
    else if mask == MASK_CS then Half
    else if 0 <= mask < 0x100 then Copy(mask)
    else Any
  }

  function Decode(data: seq<byte>, masks: seq<int>, n: nat): (cells: seq<Cell>)
    requires n <= |data| && n <= |masks|
    ensures |cells| == n && forall i :: 0 <= i < n ==> cells[i] == CellOf(data[i], masks[i])
  {
    seq(n, i requires 0 <= i < n => CellOf(data[i], masks[i]))
  }

  /** `front` is what has been read of the tokens before those that give `more`. */
  predicate ReadsOn(whole: Option<Body>, front: Body, more: Option<Body>) {
    match more
    case None => whole == None
    case Some(b) => whole == Some(Body(front.cells + b.cells, front.fields + b.fields))
  }

  lemma ReadsOnStart(whole: Option<Body>)
    ensures ReadsOn(whole, Body([], []), whole)
  {
    if whole.Some? {
      assert [] + whole.value.cells == whole.value.cells && [] + whole.value.fields == whole.value.fields;
    }
  }

  lemma ReadsOnEnd(whole: Option<Body>, front: Body)
    requires ReadsOn(whole, front, Some(Body([], [])))
    ensures whole == Some(front)
  {
    assert front.cells + [] == front.cells && front.fields + [] == front.fields;
  }

  lemma ReadsOnOne(whole: Option<Body>, front: Body, c: Cell, at: nat, more: Option<Body>)
    requires ReadsOn(whole, front, Extend(One(c), at, more))
    ensures ReadsOn(whole, Body(front.cells + [c], front.fields), more)
  {
    if more.Some? {
      assert front.cells + ([c] + more.value.cells) == front.cells + [c] + more.value.cells;
    }
  }

  lemma ReadsOnSum(whole: Option<Body>, front: Body, start: uint32, end: uint32, at: nat, more: Option<Body>)
    requires ReadsOn(whole, front, Extend(Sum(start, end), at, more))
    ensures ReadsOn(whole, Body(front.cells + [Half, Half], front.fields + [Field(at, start, end)]), more)
  {
    if more.Some? {
      assert front.cells + ([Half, Half] + more.value.cells) == front.cells + [Half, Half] + more.value.cells;
      assert front.fields + ([Field(at, start, end)] + more.value.fields) ==
             front.fields + [Field(at, start, end)] + more.value.fields;
    }
  }

  /** Ten checksums read and one more to come: the statement is refused in any case. */
  lemma TooManySums(whole: Option<Body>, front: Body, start: uint32, end: uint32, at: nat, more: Option<Body>)
    requires ReadsOn(whole, front, Extend(Sum(start, end), at, more)) && |front.fields| >= MAX_CS_SIZE
    ensures CheckBody(whole) == None
  {
  }

  /** What one token of a statement says. */
  method ParseToken(op: Op, token: string) returns (t: Token)
    requires token != ""
    ensures t == ReadToken(op, token)
  {
    if token[0] == '&' && op == Send {
      var dash := IndexOf(token[1..], '-');
      if dash == |token[1..]| {
        return Bad;
      }
      var hs, he := Strtol(token[1..][..dash], 10), Strtol(token[1..][dash + 1..], 10);
      return Sum(ToUint32(hs.value), ToUint32(he.value));
    }
    if token[0] == '&' || token[0] == '*' {
      return if op == Receive then One(Any) else Bad;
    }
    if token[0] == '?' {
      if op != Send {
        return Bad;
      }
      var n := Strtol(token[1..], 10);
      return if n.used < |token[1..]| then Bad else One(Copy(ToByte(n.value)));
    }
    var n := Strtol(token, 16);
    if n.used == 0 || n.used < |token| {
      return Bad;
    }
    return One(Exact(ToByte(n.value)));
  }

  /** The first of the tokens left, and what it means to the reading of all of them. */
  method FirstToken(op: Op, tokens: seq<string>, ghost at: nat) returns (t: Token, ghost more: Option<Body>)
    requires AllWords(tokens) && tokens != []
    ensures more == Assemble(Parse(op, tokens[1..]), at + Width(t))
    ensures Assemble(Parse(op, tokens), at) == Place(t, at, more)
  {
    t := ParseToken(op, tokens[0]);
    more := Assemble(Parse(op, tokens[1..]), at + Width(t));
    AssembleFirst(t, Parse(op, tokens[1..]), at);
  }

  class Engine {
    const g: Globals
    const table: PortTable

    var operation: Op
    var ethPortName: string
    var bytesInSpecifiedPkt: nat
    var bytesInRecvPkt: nat
    var csArraySize: nat
    const recvPkt: array<byte>
    const specifiedPkt: array<byte>
    const specifiedPktMask: array<int>
    const csArr: array<Field>
    const pkt: array<byte>              // static in packetSend

    ghost predicate Valid()
      reads this, specifiedPkt, specifiedPktMask, csArr
    {
      && recvPkt.Length == MAX_PKT_SIZE && specifiedPkt.Length == MAX_PKT_SIZE
      && specifiedPktMask.Length == MAX_PKT_SIZE && pkt.Length == MAX_PKT_SIZE
      && csArr.Length == MAX_CS_SIZE
      && recvPkt != specifiedPkt && recvPkt != pkt && specifiedPkt != pkt
      && bytesInRecvPkt <= MAX_PKT_SIZE
    }

    ghost function Repr(): set<object> {
      {this, g, table, recvPkt, specifiedPkt, specifiedPktMask, csArr, pkt}
    }

    /** What outlives a statement. */
    ghost function View(): Dev
      requires Valid()
      reads this, table, specifiedPkt, specifiedPktMask, csArr, recvPkt, pkt
    {
      Device(table.View(), recvPkt[..], bytesInRecvPkt, pkt[..])
    }

    /** The arrays hold the statement. */
    ghost predicate Loaded(body: Body)
      requires Valid()
      reads this, specifiedPkt, specifiedPktMask, csArr
    {
      && bytesInSpecifiedPkt == |body.cells| <= MAX_PKT_SIZE
      && Decode(specifiedPkt[..], specifiedPktMask[..], bytesInSpecifiedPkt) == body.cells
      && csArraySize == |body.fields| <= MAX_CS_SIZE
      && csArr[..csArraySize] == body.fields
    }

    /** The statement in the arrays, for the event that shows it. */
    function SpecifiedBody(): Body
      requires bytesInSpecifiedPkt <= specifiedPkt.Length && bytesInSpecifiedPkt <= specifiedPktMask.Length
      requires csArraySize <= csArr.Length
      reads this, specifiedPkt, specifiedPktMask, csArr
    {
      Body(Decode(specifiedPkt[..], specifiedPktMask[..], bytesInSpecifiedPkt), csArr[..csArraySize])
    }

    constructor (g: Globals, table: PortTable)
      ensures Valid() && this.g == g && this.table == table
      ensures fresh(recvPkt) && fresh(specifiedPkt) && fresh(specifiedPktMask) && fresh(csArr) && fresh(pkt)
      ensures View() == Device(table.View(), Zeros(), 0, Zeros())
    {
      this.g := g;
      this.table := table;
      operation := Send;
      ethPortName := "";
      bytesInSpecifiedPkt := 0;
      bytesInRecvPkt := 0;
      csArraySize := 0;
      recvPkt := new byte[MAX_PKT_SIZE](_ => 0);
      specifiedPkt := new byte[MAX_PKT_SIZE](_ => 0);
      specifiedPktMask := new int[MAX_PKT_SIZE](_ => 0);
      csArr := new Field[MAX_CS_SIZE](_ => Field(0, 0, 0));
      pkt := new byte[MAX_PKT_SIZE](_ => 0);
      new;
      assert recvPkt[..] == Zeros() && pkt[..] == Zeros();
    }

    /** The default and `?`, `*` cases of packetRead: one byte with its mask. */
    method StoreByte(data: byte, mask: int, ghost body: Body)
      requires Valid() && Loaded(body) && bytesInSpecifiedPkt < MAX_PKT_SIZE
      modifies this`bytesInSpecifiedPkt, specifiedPkt, specifiedPktMask
      ensures Valid() && Loaded(Body(body.cells + [CellOf(data, mask)], body.fields))
    {
      specifiedPkt[bytesInSpecifiedPkt] := data;
      specifiedPktMask[bytesInSpecifiedPkt] := mask;
      bytesInSpecifiedPkt := bytesInSpecifiedPkt + 1;
      assert Decode(specifiedPkt[..], specifiedPktMask[..], bytesInSpecifiedPkt) == body.cells + [CellOf(data, mask)];
    }

    /** The `&` case of packetRead: a range to sum up, and two bytes for its checksum. */
    method StoreSum(start: uint32, end: uint32, ghost body: Body)
      requires Valid() && Loaded(body) && bytesInSpecifiedPkt + 2 <= MAX_PKT_SIZE && csArraySize < MAX_CS_SIZE
      modifies this`bytesInSpecifiedPkt, this`csArraySize, specifiedPkt, specifiedPktMask, csArr
      ensures Valid()
      ensures Loaded(Body(body.cells + [Half, Half], body.fields + [Field(|body.cells|, start, end)]))
    {
      csArr[csArraySize] := Field(bytesInSpecifiedPkt, start, end);
      csArraySize := csArraySize + 1;
      assert csArr[..csArraySize] == body.fields + [Field(|body.cells|, start, end)];
      StoreByte(0, MASK_CS, Body(body.cells, csArr[..csArraySize]));
      StoreByte(0, MASK_CS, Body(body.cells + [Half], csArr[..csArraySize]));
      assert body.cells + [Half] + [Half] == body.cells + [Half, Half];
    }

    /** The switch of packetRead over the kinds of tokens. */
    method StoreToken(t: Token, ghost whole: Option<Body>, ghost body: Body, ghost more: Option<Body>)
      returns (ok: bool, ghost body': Body)
      requires Valid() && Loaded(body)
      requires ReadsOn(whole, body, Place(t, |body.cells|, more))
      modifies this`bytesInSpecifiedPkt, this`csArraySize, specifiedPkt, specifiedPktMask, csArr
      ensures Valid()
      ensures ok ==> Loaded(body') && |body'.cells| == |body.cells| + Width(t) && ReadsOn(whole, body', more)
      ensures !ok ==> CheckBody(whole) == None
    {
      body' := body;
      if bytesInSpecifiedPkt + Width(t) > MAX_PKT_SIZE {
        return false, body;
      }
      match t {
        case Bad =>
          return false, body;
        case One(c) =>
          match c {
            case Exact(data) => StoreByte(data, MASK_EXACT, body);
            case Any => StoreByte(0, MASK_SKIP, body);
            case Copy(k) => StoreByte(0, k, body);
            case Half => StoreByte(0, MASK_CS, body);
          }
          ReadsOnOne(whole, body, c, |body.cells|, more);
          body' := Body(body.cells + [c], body.fields);
        case Sum(start, end) =>
          if csArraySize >= MAX_CS_SIZE {
            TooManySums(whole, body, start, end, |body.cells|, more);
            return false, body;
          }
          StoreSum(start, end, body);
          ReadsOnSum(whole, body, start, end, |body.cells|, more);
          body' := Body(body.cells + [Half, Half], body.fields + [Field(|body.cells|, start, end)]);
      }
      return true, body';
    }

    /** The arrays hold `body`, and the tokens `left` are still to be read. */
    ghost predicate Midway(whole: Option<Body>, body: Body, op: Op, left: seq<string>)
      requires Valid() && AllWords(left)
      reads this, specifiedPkt, specifiedPktMask, csArr
    {
      Loaded(body) && ReadsOn(whole, body, Assemble(Parse(op, left), |body.cells|))
    }

    method ReadOne(op: Op, left: seq<string>, ghost whole: Option<Body>, ghost body: Body)
      returns (ok: bool, ghost body': Body)
      requires Valid() && AllWords(left) && left != [] && Midway(whole, body, op, left)
      modifies this`bytesInSpecifiedPkt, this`csArraySize, specifiedPkt, specifiedPktMask, csArr
      ensures Valid()
      ensures ok ==> Midway(whole, body', op, left[1..])
      ensures !ok ==> CheckBody(whole) == None
    {
      hide Assemble, Parse, Place, CheckBody, ReadsOn;
      var t;
      ghost var more;
      t, more := FirstToken(op, left, |body.cells|);
      ok, body' := StoreToken(t, whole, body, more);
    }

    /** The loop of packetRead over the tokens behind the port name. */
    method ReadBody(op: Op, tokens: seq<string>) returns (ok: bool)
      requires Valid() && AllWords(tokens)
      modifies this`bytesInSpecifiedPkt, this`csArraySize, specifiedPkt, specifiedPktMask, csArr
      ensures Valid()
      ensures ok ==> Assemble(Parse(op, tokens), 0).Some? && Loaded(Assemble(Parse(op, tokens), 0).value)
      ensures !ok ==> CheckBody(Assemble(Parse(op, tokens), 0)) == None
    {
      bytesInSpecifiedPkt := 0;
      csArraySize := 0;
      ghost var whole := Assemble(Parse(op, tokens), 0);
      ghost var body := Body([], []);
      ReadsOnStart(whole);
      var left := tokens;
      while left != []
        invariant AllWords(left) && Valid() && Midway(whole, body, op, left)
        decreases |left|
      {
        ok, body := ReadOne(op, left, whole, body);
        if !ok {
          return;
        }
        left := left[1..];
      }
      ReadsOnEnd(whole, body);
      return true;
    }

    /** packetRead. */
    method PacketRead(statement: string) returns (ok: bool)
      requires Valid() && statement != ""
      modifies this, table, specifiedPkt, specifiedPktMask, csArr
      ensures Valid() && bytesInRecvPkt == old(bytesInRecvPkt)
      ensures PortOf(statement).None? ==> !ok && table.View() == old(table.View())
      ensures PortOf(statement).Some? ==>
                var o := Open(table.cfg, old(table.View()), PortOf(statement).value);
                && table.View() == o.net
                && (ok <==> o.ok && BodyOf(statement).Some?)
                && (ok ==> Loaded(BodyOf(statement).value) && operation == OpOf(statement[0])
                           && ethPortName == PortOf(statement).value)
    {
      operation := if statement[0] == '<' then Receive else Send;
      var tokens := Tokens(statement[1..]);
      if tokens == [] || MAX_ETH_PORT_NAME_LEN <= |tokens[0]| {
        return false;
      }
      ethPortName := tokens[0];
      var idx := table.EthPortOpen(ethPortName);
      if idx < 0 {
        return false;
      }
      ok := ReadBody(operation, tokens[1..]);
      if ok {
        ok := 0 < bytesInSpecifiedPkt && RangesInBuffer();
      }
    }

    /** The ranges of the statement stay inside the buffer; outside it the program would leave
        its arrays. */
    predicate RangesInBuffer()
      requires csArraySize <= csArr.Length
      reads this, csArr
    {
      FieldsInBuffer(csArr[..csArraySize], MAX_PKT_SIZE)
    }

    /** The first loop of packetSend. */
    method FillPacket(ghost body: Body) returns (ok: bool)
      requires Valid() && Loaded(body)
      modifies pkt
      ensures Filled(ok, pkt[..]) == FillCells(body.cells, recvPkt[..], bytesInRecvPkt, old(pkt[..]), 0)
    {
      var pktLen := 0;
      while pktLen < bytesInSpecifiedPkt
        invariant pktLen <= bytesInSpecifiedPkt
        invariant FillCells(body.cells, recvPkt[..], bytesInRecvPkt, pkt[..], pktLen) ==
                  FillCells(body.cells, recvPkt[..], bytesInRecvPkt, old(pkt[..]), 0)
      {
        ghost var before := pkt[..];
        assert body.cells[pktLen] == CellOf(specifiedPkt[pktLen], specifiedPktMask[pktLen]);
        var mask := specifiedPktMask[pktLen];
        if mask == MASK_EXACT {
          pkt[pktLen] := specifiedPkt[pktLen];
          assert pkt[..] == before[pktLen := specifiedPkt[pktLen]];
        } else if 0 <= mask < 0x100 {
          if bytesInRecvPkt > mask {
            pkt[pktLen] := recvPkt[mask];
            assert pkt[..] == before[pktLen := recvPkt[mask]];
          } else {
            return false;
          }
        } else if mask != MASK_CS {
          return false;
        }
        pktLen := pktLen + 1;
      }
      return true;
    }

    /** packetSend. */
    method SendPacket(ghost body: Body) returns (ret: int)
      requires Valid() && Loaded(body) && PacketSpec.Sound(body)
      modifies g`shown, table, pkt
      ensures Valid()
      ensures var o := PacketSend(table.cfg, ethPortName, body, old(View()));
              && View() == o.dev && ret == o.ret && !o.fails
              && g.shown == old(g.shown) + (if o.shown.Some? then [o.shown.value] else [])
    {
      var ok := FillPacket(body);
      if !ok {
        return FAILED;
      }
      FillChecksums(pkt, csArr[..csArraySize]);
      ret := table.EthPortSend(ethPortName, bytesInSpecifiedPkt);
      if ret == SUCCESS {
        g.Show(Sent(ethPortName, SpecifiedBody(), pkt[..bytesInSpecifiedPkt]));
      }
    }

    /** The comparing loop of packetReceive and the check of the length behind it. */
    method Compare(ghost body: Body, ghost data: seq<byte>) returns (accepted: bool)
      requires Valid() && Loaded(body)
      requires bytesInRecvPkt == |data| && recvPkt[..|data|] == data
      requires forall c :: c in body.cells ==> c.Exact? || c.Any?
      ensures accepted <==> Accepts(body.cells, data)
    {
      var pktLen := if bytesInSpecifiedPkt > bytesInRecvPkt then bytesInRecvPkt else bytesInSpecifiedPkt;
      var i := 0;
      while i < pktLen
        invariant i <= pktLen
        invariant forall j :: 0 <= j < i && body.cells[j].Exact? ==> data[j] == body.cells[j].data
      {
        assert body.cells[i] == CellOf(specifiedPkt[i], specifiedPktMask[i]);
        assert recvPkt[i] == recvPkt[..|data|][i];
        if specifiedPktMask[i] == MASK_EXACT && recvPkt[i] != specifiedPkt[i] {
          return false;
        }
        i := i + 1;
      }
      return !(60 < bytesInRecvPkt && bytesInSpecifiedPkt != bytesInRecvPkt);
    }

    /** The packet goes into RecvPkt, over what was there. */
    method TakeIn(data: Packet)
      requires Valid()
      modifies this`bytesInRecvPkt, recvPkt
      ensures Valid() && bytesInRecvPkt == |data|
      ensures recvPkt[..] == data + old(recvPkt[..])[|data|..]
    {
      forall k | 0 <= k < |data| {
        recvPkt[k] := data[k];
      }
      bytesInRecvPkt := |data|;
    }

    /** packetReceive once a packet has come in. */
    method Judge(ghost body: Body, data: Packet) returns (ret: int)
      requires Valid() && Loaded(body)
      requires bytesInRecvPkt == |data| && recvPkt[..|data|] == data
      requires forall c :: c in body.cells ==> c.Exact? || c.Any?
      modifies this`bytesInRecvPkt, g
      ensures Valid() && ret == SUCCESS
      ensures bytesInRecvPkt == if Accepts(body.cells, data) then Min(|body.cells|, |data|) else |data|
      ensures g.currentTestResult == (if Accepts(body.cells, data) then old(g.currentTestResult) else Failed)
      ensures g.currentTestCaseId == old(g.currentTestCaseId)
      ensures g.shown == old(g.shown) + [if Accepts(body.cells, data) then Matched(ethPortName, body, data)
                                         else Mismatched(ethPortName, body, data)]
    {
      var accepted := Compare(body, data);
      if !accepted {
        g.currentTestResult := Failed;
        g.Show(Mismatched(ethPortName, SpecifiedBody(), data));
        return SUCCESS;
      }
      g.Show(Matched(ethPortName, SpecifiedBody(), data));
      if bytesInSpecifiedPkt < bytesInRecvPkt {
        bytesInRecvPkt := bytesInSpecifiedPkt;
      }
      return SUCCESS;
    }

    /** packetReceive. */
    method ReceivePacket(ghost body: Body) returns (ret: int)
      requires Valid() && Loaded(body)
      requires forall c :: c in body.cells ==> c.Exact? || c.Any?
      modifies this`bytesInRecvPkt, g, table, recvPkt
      ensures Valid()
      ensures var o := PacketReceive(table.cfg, ethPortName, body, old(View()));
              && View() == o.dev && ret == o.ret && o.shown.Some?
              && g.currentTestResult == (if o.fails then Failed else old(g.currentTestResult))
              && g.currentTestCaseId == old(g.currentTestCaseId)
              && g.shown == old(g.shown) + [o.shown.value]
    {
      bytesInRecvPkt := MAX_PKT_SIZE;
      var got := table.EthPortReceive(ethPortName);
      if got.None? {
        g.currentTestResult := Failed;
        g.Show(TimedOut(ethPortName));
        return SUCCESS;
      }
      TakeIn(got.value);
      assert recvPkt[..|got.value|] == got.value;
      ret := Judge(body, got.value);
    }

    method PacketProcess(statement: string) returns (ret: int)
      requires Valid() && statement != ""
      modifies Repr()
      ensures Valid()
      ensures var o := Interpreter.PacketProcess(table.cfg, statement, old(View()));
              && View() == o.dev && ret == o.ret
              && g.currentTestResult == (if o.fails then Failed else old(g.currentTestResult))
              && g.currentTestCaseId == old(g.currentTestCaseId)
              && g.shown == old(g.shown) + (if o.shown.Some? then [o.shown.value] else [])
    {
      var ok := PacketRead(statement);
      if !ok {
        return FAILED;
      }
      ghost var body := BodyOf(statement).value;
      BodyFits(statement);
      if operation == Send {
        ret := SendPacket(body);
      } else {
        ReceiveCells(statement);
        ret := ReceivePacket(body);
      }
    }
  }
}
