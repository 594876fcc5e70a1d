/** EthPortIO.c: the table of open ports, the receiver thread that fills a queue for each of
    them, and the reads and drains that empty the queues.

    The outside world is a finite script of ticks. Each time the program opens a port, sends,
    or reads a queue, one tick passes: the frames of the tick are what the receiver threads
    handle up to that moment, and `ok` says whether the call to the outside succeeds. Since
    every script is allowed, every interleaving of arrivals with the program is. */
module Ports {
  import opened Text
  import opened Checksum

  type Packet = p: seq<byte> | |p| <= MAX_PKT_SIZE

  /** `accepts` is the packet filter together with the address check, `capacity` the length of
      a message queue. */
  datatype Config = Config(accepts: (string, Packet) -> bool, capacity: nat)

  datatype Frame = Frame(port: string, data: Packet)
  datatype Tick = Tick(ok: bool, frames: seq<Frame>)

  /** An arrival that passed the filter, and whether the queue had room for it. */
  datatype Arrival = Arrival(data: Packet, kept: bool)

  /** A port: its queue, and for the theorems how many ticks were to come when it was opened,
      what arrived, and what the program has read. */
  datatype Port = Port(name: string, left: nat, queue: seq<Packet>, arrived: seq<Arrival>, taken: seq<Packet>)

  datatype Net = Net(ports: seq<Port>, future: seq<Tick>)

  function NewPort(name: string, left: nat): Port {
    Port(name, left, [], [], [])
  }

  /** ethPortIdxFindByName: the first port of that name, or the number of ports. */
  function FindPort(ports: seq<Port>, name: string): (i: nat)
    ensures i <= |ports|
    ensures i < |ports| ==> ports[i].name == name
    ensures forall k :: 0 <= k < i ==> ports[k].name != name
  {
    if ports == [] || ports[0].name == name then 0 else 1 + FindPort(ports[1..], name)
  }

  ghost predicate DistinctNames(ports: seq<Port>) {
    forall i, j :: 0 <= i < j < |ports| ==> ports[i].name != ports[j].name
  }

  // ---------- Arrivals ----------

  /** One round of ReceiverPthreadFunc. */
  function Deliver(cfg: Config, p: Port, data: Packet): Port {
    if |data| == 0 || !cfg.accepts(p.name, data) then p
    else if |p.queue| < cfg.capacity then
      p.(queue := p.queue + [data], arrived := p.arrived + [Arrival(data, true)])
    else p.(arrived := p.arrived + [Arrival(data, false)])
  }

  /** A frame reaches the receiver of its port; no thread listens on a port that is not open. */
  function Arrive(cfg: Config, ports: seq<Port>, f: Frame): (r: seq<Port>)
    ensures |r| == |ports|
  {
    var i := FindPort(ports, f.port);
    if i < |ports| then ports[i := Deliver(cfg, ports[i], f.data)] else ports
  }

  function ArriveAll(cfg: Config, ports: seq<Port>, fs: seq<Frame>): (r: seq<Port>)
    ensures |r| == |ports|
    decreases |fs|
  {
    if fs == [] then ports else ArriveAll(cfg, Arrive(cfg, ports, fs[0]), fs[1..])
  }

  function Elapse(cfg: Config, net: Net): (r: Net)
    ensures |r.ports| == |net.ports|
  {
    if net.future == [] then net
    else Net(ArriveAll(cfg, net.ports, net.future[0].frames), net.future[1..])
  }

  predicate NextOk(net: Net) {
    net.future == [] || net.future[0].ok
  }

  // ---------- Reads ----------

  datatype Read = Read(net: Net, data: Option<Packet>)

  function TakeFirst(p: Port): Port
    requires p.queue != []
  {
    p.(queue := p.queue[1..], taken := p.taken + [p.queue[0]])
  }

  /** ethPortRead: the first packet of the queue, or a timeout. */
  function ReadPort(cfg: Config, net: Net, i: nat): (r: Read)
    requires i < |net.ports|
    ensures |r.net.ports| == |net.ports|
  {
    var n := Elapse(cfg, net);
    if n.ports[i].queue == [] then Read(n, None)
    else Read(n.(ports := n.ports[i := TakeFirst(n.ports[i])]), Some(n.ports[i].queue[0]))
  }

  datatype Capture = Capture(port: string, data: Packet)
  datatype ReadAny = ReadAny(net: Net, got: Option<Capture>)

  /** EthPortReceiveAny from port `i` on. */
  function ReceiveAny(cfg: Config, net: Net, i: nat): (r: ReadAny)
    requires i <= |net.ports|
    ensures |r.net.ports| == |net.ports|
    decreases |net.ports| - i
  {
    if i == |net.ports| then ReadAny(net, None)
    else
      var r := ReadPort(cfg, net, i);
      if r.data.Some? then ReadAny(r.net, Some(Capture(net.ports[i].name, r.data.value)))
      else ReceiveAny(cfg, r.net, i + 1)
  }

  // ---------- Drains end ----------

  function Frames(future: seq<Tick>): nat {
    if future == [] then 0 else |future[0].frames| + Frames(future[1..])
  }

  function Queued(ports: seq<Port>): nat {
    if ports == [] then 0 else |ports[0].queue| + Queued(ports[1..])
  }

  /** Packets that are queued or may still arrive. */
  function Weight(net: Net): nat {
    Queued(net.ports) + Frames(net.future)
  }

  lemma {:induction false} QueuedSet(ports: seq<Port>, i: nat, p: Port)
    requires i < |ports|
    ensures Queued(ports[i := p]) == Queued(ports) - |ports[i].queue| + |p.queue|
  {
    if i == 0 {
      assert ports[i := p][1..] == ports[1..];
    } else {
      assert ports[i := p][1..] == ports[1..][i - 1 := p];
      QueuedSet(ports[1..], i - 1, p);
    }
  }

  lemma {:induction false} ArriveAllWeight(cfg: Config, ports: seq<Port>, fs: seq<Frame>)
    ensures Queued(ArriveAll(cfg, ports, fs)) <= Queued(ports) + |fs|
    decreases |fs|
  {
    if fs != [] {
      var i := FindPort(ports, fs[0].port);
      if i < |ports| {
        QueuedSet(ports, i, Deliver(cfg, ports[i], fs[0].data));
      }
      ArriveAllWeight(cfg, Arrive(cfg, ports, fs[0]), fs[1..]);
    }
  }

  lemma ReadPortWeight(cfg: Config, net: Net, i: nat)
    requires i < |net.ports|
    ensures Weight(ReadPort(cfg, net, i).net) <= Weight(net)
    ensures ReadPort(cfg, net, i).data.Some? ==> Weight(ReadPort(cfg, net, i).net) < Weight(net)
  {
    var n := Elapse(cfg, net);
    if net.future != [] {
      ArriveAllWeight(cfg, net.ports, net.future[0].frames);
    }
    if n.ports[i].queue != [] {
      QueuedSet(n.ports, i, TakeFirst(n.ports[i]));
    }
  }

  lemma {:induction false} ReceiveAnyWeight(cfg: Config, net: Net, i: nat)
    requires i <= |net.ports|
    ensures Weight(ReceiveAny(cfg, net, i).net) <= Weight(net)
    ensures ReceiveAny(cfg, net, i).got.Some? ==> Weight(ReceiveAny(cfg, net, i).net) < Weight(net)
    decreases |net.ports| - i
  {
    if i < |net.ports| {
      ReadPortWeight(cfg, net, i);
      var r := ReadPort(cfg, net, i);
      if r.data.None? {
        ReceiveAnyWeight(cfg, r.net, i + 1);
      }
    }
  }

  datatype Drained = Drained(net: Net, found: seq<Capture>)

  /** The loop of CheckUnexpectedPackets: reads until a sweep over all ports finds nothing.
      It ends because only finitely many packets arrive. */
  function Drain(cfg: Config, net: Net): (d: Drained)
    ensures |d.net.ports| == |net.ports|
    decreases Weight(net)
  {
    var r := ReceiveAny(cfg, net, 0);
    if r.got.None? then Drained(r.net, [])
    else
      ReceiveAnyWeight(cfg, net, 0);
      var d := Drain(cfg, r.net);
      Drained(d.net, [r.got.value] + d.found)
  }

  // ---------- What a drain finds ----------

  lemma {:induction false} ArriveAllGrows(cfg: Config, ports: seq<Port>, fs: seq<Frame>, i: nat)
    requires i < |ports|
    ensures ports[i].queue <= ArriveAll(cfg, ports, fs)[i].queue
    ensures ports[i].name == ArriveAll(cfg, ports, fs)[i].name
    decreases |fs|
  {
    if fs != [] {
      ArriveAllGrows(cfg, Arrive(cfg, ports, fs[0]), fs[1..], i);
    }
  }

  lemma {:induction false} SweepMeetsAll(cfg: Config, net: Net, i: nat, k: nat)
    requires i <= k < |net.ports|
    requires ReceiveAny(cfg, net, i).got.None?
    ensures net.ports[k].queue == []
    decreases |net.ports| - i
  {
    if net.future != [] {
      ArriveAllGrows(cfg, net.ports, net.future[0].frames, k);
    }
    if i < k {
      SweepMeetsAll(cfg, ReadPort(cfg, net, i).net, i + 1, k);
    }
  }

  /** A drain that finds nothing has met every open queue empty, whatever arrived meanwhile. */
  lemma NothingFound(cfg: Config, net: Net)
    requires Drain(cfg, net).found == []
    ensures forall k :: 0 <= k < |net.ports| ==> net.ports[k].queue == []
  {
    forall k | 0 <= k < |net.ports| ensures net.ports[k].queue == [] {
      SweepMeetsAll(cfg, net, 0, k);
    }
  }

  function Captures(name: string, queue: seq<Packet>): seq<Capture> {
    if queue == [] then [] else [Capture(name, queue[0])] + Captures(name, queue[1..])
  }

  /** Everything queued, port after port. */
  function Backlog(ports: seq<Port>): seq<Capture> {
    if ports == [] then [] else Captures(ports[0].name, ports[0].queue) + Backlog(ports[1..])
  }

  lemma {:induction false} QuietElapse(cfg: Config, net: Net)
    requires Frames(net.future) == 0
    ensures Elapse(cfg, net).ports == net.ports && Frames(Elapse(cfg, net).future) == 0
  {
  }

  lemma {:induction false} BacklogSkip(ports: seq<Port>, i: nat)
    requires i <= |ports| && forall k :: 0 <= k < i ==> ports[k].queue == []
    ensures Backlog(ports) == Backlog(ports[i..])
  {
    if i > 0 {
      BacklogSkip(ports[1..], i - 1);
      assert ports[1..][i - 1..] == ports[i..];
    } else {
      assert ports[0..] == ports;
    }
  }

  lemma {:induction false} QuietSweep(cfg: Config, net: Net, i: nat)
    requires i <= |net.ports| && Frames(net.future) == 0
    requires forall k :: 0 <= k < i ==> net.ports[k].queue == []
    ensures var r := ReceiveAny(cfg, net, i);
            && Frames(r.net.future) == 0
            && (r.got.None? ==> r.net.ports == net.ports && Backlog(net.ports) == [])
            && (r.got.Some? ==> Backlog(net.ports) == [r.got.value] + Backlog(r.net.ports))
    decreases |net.ports| - i
  {
    if i < |net.ports| {
      QuietElapse(cfg, net);
      var ports := net.ports;
      if ports[i].queue == [] {
        QuietSweep(cfg, Elapse(cfg, net), i + 1);
      } else {
        var after := ports[i := TakeFirst(ports[i])];
        BacklogSkip(ports, i);
        BacklogSkip(after, i);
        assert after[i..][1..] == ports[i..][1..];
        assert ports[i..][0] == ports[i] && after[i..][0] == after[i];
      }
    } else {
      BacklogSkip(net.ports, i);
    }
  }

  lemma {:induction false} EmptyBacklog(ports: seq<Port>, k: nat)
    requires Backlog(ports) == [] && k < |ports|
    ensures ports[k].queue == []
  {
    if k > 0 {
      EmptyBacklog(ports[1..], k - 1);
    }
  }

  /** When no more frames come, a drain finds exactly what is queued, port after port and each
      queue in order, and leaves every queue empty. */
  lemma {:induction false} QuietDrain(cfg: Config, net: Net)
    requires Frames(net.future) == 0
    ensures Drain(cfg, net).found == Backlog(net.ports)
    ensures forall k :: 0 <= k < |net.ports| ==> Drain(cfg, net).net.ports[k].queue == []
    decreases Weight(net)
  {
    QuietSweep(cfg, net, 0);
    var r := ReceiveAny(cfg, net, 0);
    if r.got.Some? {
      ReceiveAnyWeight(cfg, net, 0);
      QuietDrain(cfg, r.net);
    } else {
      forall k | 0 <= k < |net.ports| ensures net.ports[k].queue == [] {
        EmptyBacklog(net.ports, k);
      }
    }
  }

  // ---------- Conservation ----------

  function Kept(arrived: seq<Arrival>): seq<Packet> {
    if arrived == [] then []
    else Kept(arrived[..|arrived| - 1]) +
         (if arrived[|arrived| - 1].kept then [arrived[|arrived| - 1].data] else [])
  }

  /** What arrived, less what a full queue dropped, is what was read followed by what waits. */
  ghost predicate Conserved(p: Port) {
    Kept(p.arrived) == p.taken + p.queue
  }

  ghost predicate AllConserved(ports: seq<Port>) {
    forall i :: 0 <= i < |ports| ==> Conserved(ports[i])
  }

  lemma KeptSnoc(arrived: seq<Arrival>, a: Arrival)
    ensures Kept(arrived + [a]) == Kept(arrived) + (if a.kept then [a.data] else [])
  {
    assert (arrived + [a])[..|arrived|] == arrived;
  }

  /** An arrival keeps the books of its port, and a packet that is not filtered is lost exactly
      when the queue is full. */
  lemma DeliverConserves(cfg: Config, p: Port, data: Packet)
    requires Conserved(p)
    ensures Conserved(Deliver(cfg, p, data))
    ensures data != [] && cfg.accepts(p.name, data) ==>
              (Deliver(cfg, p, data).queue == p.queue <==> |p.queue| >= cfg.capacity)
    ensures Deliver(cfg, p, data).name == p.name && Deliver(cfg, p, data).taken == p.taken
    ensures |p.queue| <= cfg.capacity ==> |Deliver(cfg, p, data).queue| <= cfg.capacity
  {
    var a := Arrival(data, |p.queue| < cfg.capacity);
    KeptSnoc(p.arrived, a);
    assert a.kept ==> p.taken + p.queue + [data] == p.taken + (p.queue + [data]);
  }

  /** The same ports, with the same packets read from them. */
  ghost predicate Steady(a: seq<Port>, b: seq<Port>) {
    |a| == |b| && forall k :: 0 <= k < |a| ==> a[k].name == b[k].name && a[k].taken == b[k].taken
  }

  /** One more packet has been read, from port `i`. */
  ghost predicate Took(a: seq<Port>, b: seq<Port>, i: nat, data: Packet) {
    && |a| == |b| && i < |a|
    && (forall k :: 0 <= k < |a| ==> a[k].name == b[k].name)
    && (forall k :: 0 <= k < |a| && k != i ==> a[k].taken == b[k].taken)
    && b[i].taken == a[i].taken + [data]
  }

  lemma {:induction false} ArriveAllConserves(cfg: Config, ports: seq<Port>, fs: seq<Frame>)
    requires AllConserved(ports)
    ensures AllConserved(ArriveAll(cfg, ports, fs))
    ensures Steady(ports, ArriveAll(cfg, ports, fs))
    decreases |fs|
  {
    if fs != [] {
      var i := FindPort(ports, fs[0].port);
      if i < |ports| {
        DeliverConserves(cfg, ports[i], fs[0].data);
      }
      ArriveAllConserves(cfg, Arrive(cfg, ports, fs[0]), fs[1..]);
    }
  }

  lemma ElapseConserves(cfg: Config, net: Net)
    requires AllConserved(net.ports)
    ensures AllConserved(Elapse(cfg, net).ports)
    ensures Steady(net.ports, Elapse(cfg, net).ports)
  {
    if net.future != [] {
      ArriveAllConserves(cfg, net.ports, net.future[0].frames);
    }
  }

  lemma TakeConserves(p: Port)
    requires Conserved(p) && p.queue != []
    ensures Conserved(TakeFirst(p))
  {
    assert p.taken + p.queue == p.taken + [p.queue[0]] + p.queue[1..];
  }

  lemma ReadPortConserves(cfg: Config, net: Net, i: nat)
    requires AllConserved(net.ports) && i < |net.ports|
    ensures var r := ReadPort(cfg, net, i);
            && AllConserved(r.net.ports)
            && (r.data.None? ==> Steady(net.ports, r.net.ports))
            && (r.data.Some? ==> Took(net.ports, r.net.ports, i, r.data.value))
  {
    ElapseConserves(cfg, net);
    var p := Elapse(cfg, net).ports[i];
    if p.queue != [] {
      TakeConserves(p);
    }
  }

  // ---------- The table as the program keeps it ----------

  /** EthPortInfoTable with the queues behind it, and the ticks to come. */
  class PortTable {
    const cfg: Config
    var ports: seq<Port>
    var future: seq<Tick>

    ghost function View(): Net
      reads this
    {
      Net(ports, future)
    }

    constructor (cfg: Config, future: seq<Tick>)
      ensures this.cfg == cfg && View() == Net([], future)
    {
      this.cfg := cfg;
      this.ports := [];
      this.future := future;
    }

    /** What the receiver threads do up to the next call to the outside. */
    method ReceiverThreads() returns (ok: bool)
      modifies this
      ensures ok == NextOk(old(View()))
      ensures View() == Elapse(cfg, old(View()))
    {
      if future == [] {
        return true;
      }
      var tick := future[0];
      var k := 0;
      while k < |tick.frames|
        invariant k <= |tick.frames| && future == old(future)
        invariant ArriveAll(cfg, ports, tick.frames[k..]) == ArriveAll(cfg, old(ports), tick.frames)
      {
        ReceiverPthreadFunc(tick.frames[k]);
        k := k + 1;
      }
      future := future[1..];
      ok := tick.ok;
    }

    /** One round of the receiver thread of the port the frame comes in on. */
    method ReceiverPthreadFunc(f: Frame)
      modifies this`ports
      ensures ports == Arrive(cfg, old(ports), f)
    {
      var i := EthPortIdxFindByName(f.port);
      if i < 0 {
        return;
      }
      var p := ports[i];
      if |f.data| == 0 {
        return;
      }
      if !cfg.accepts(p.name, f.data) {
        return;
      }
      if |p.queue| < cfg.capacity {
        ports := ports[i := p.(queue := p.queue + [f.data], arrived := p.arrived + [Arrival(f.data, true)])];
      } else {
        ports := ports[i := p.(arrived := p.arrived + [Arrival(f.data, false)])];
      }
    }

    method EthPortIdxFindByName(name: string) returns (idx: int)
      ensures idx == if FindPort(ports, name) < |ports| then FindPort(ports, name) else -1
    {
      var i := 0;
      while i < |ports|
        invariant i <= |ports|
        invariant FindPort(ports, name) == i + FindPort(ports[i..], name)
      {
        if ports[i].name == name {
          return i;
        }
        i := i + 1;
      }
      return -1;
    }

    method EthPortOpen(name: string) returns (idx: int)
      modifies this
      ensures var r := Open(cfg, old(View()), name);
              View() == r.net && (idx >= 0 <==> r.ok)
    {
      idx := EthPortIdxFindByName(name);
      if idx >= 0 {
        return;
      }
      var ok := ReceiverThreads();
      if !ok {
        return -1;
      }
      ports := ports + [NewPort(name, |future|)];
      idx := |ports| - 1;
    }

    /** EthPortSend: what `ret` says is FAILED when sendto fails and NOTFOUND (-1) for a port that
        is not open or a packet too short. */
    method EthPortSend(name: string, length: nat) returns (ret: int)
      modifies this
      ensures if FindPort(old(ports), name) == |old(ports)| || length < 14
              then ret == -1 && View() == old(View())
              else ret == (if NextOk(old(View())) then 1 else 0) && View() == Elapse(cfg, old(View()))
    {
      var idx := EthPortIdxFindByName(name);
      if idx < 0 {
        return -1;
      }
      if length < 14 {
        return -1;
      }
      var ok := ReceiverThreads();
      return if ok then 1 else 0;
    }

    /** EthPortReceive: None is the timeout, also given for a port that is not open. */
    method EthPortReceive(name: string) returns (data: Option<Packet>)
      modifies this
      ensures if FindPort(old(ports), name) == |old(ports)| then data.None? && View() == old(View())
              else View() == ReadPort(cfg, old(View()), FindPort(old(ports), name)).net
                   && data == ReadPort(cfg, old(View()), FindPort(old(ports), name)).data
    {
      var portIdx := EthPortIdxFindByName(name);
      if portIdx < 0 {
        return None;
      }
      data := EthPortRead(portIdx);
    }

    method EthPortRead(i: nat) returns (data: Option<Packet>)
      requires i < |ports|
      modifies this
      ensures var r := ReadPort(cfg, old(View()), i);
              View() == r.net && data == r.data
    {
      var _ := ReceiverThreads();
      var p := ports[i];
      if p.queue == [] {
        return None;
      }
      ports := ports[i := p.(queue := p.queue[1..], taken := p.taken + [p.queue[0]])];
      return Some(p.queue[0]);
    }

    method EthPortReceiveAny() returns (got: Option<Capture>)
      modifies this
      ensures var r := ReceiveAny(cfg, old(View()), 0);
              View() == r.net && got == r.got
    {
      var portIdx := 0;
      while portIdx < |ports|
        invariant portIdx <= |ports|
        invariant ReceiveAny(cfg, View(), portIdx) == ReceiveAny(cfg, old(View()), 0)
      {
        var name := ports[portIdx].name;
        var data := EthPortRead(portIdx);
        if data.Some? {
          return Some(Capture(name, data.value));
        }
        portIdx := portIdx + 1;
      }
      return None;
    }
  }

  datatype Opening = Opening(net: Net, ok: bool)

  /** EthPortOpen: a port already open is found; otherwise the outside decides. */
  function Open(cfg: Config, net: Net, name: string): Opening {
    if FindPort(net.ports, name) < |net.ports| then Opening(net, true)
    else
      var n := Elapse(cfg, net);
      if NextOk(net) then Opening(n.(ports := n.ports + [NewPort(name, |n.future|)]), true)
      else Opening(n, false)
  }
}
