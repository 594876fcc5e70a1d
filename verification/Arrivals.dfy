/** The queue of a port against the frames that come in: at every moment it is a bounded queue
    that has been offered, tick by tick, what the wire brought for the port since it was
    opened, and nothing else. */
module Arrivals {
  import opened Ports

  // ---------- What a port is offered ----------

  /** The packets in some frames that are for a port: not empty and not filtered, in order. */
  function Offers(cfg: Config, name: string, fs: seq<Frame>): seq<Packet> {
    if fs == [] then []
    else if fs[0].port == name && fs[0].data != [] && cfg.accepts(name, fs[0].data)
    then [fs[0].data] + Offers(cfg, name, fs[1..])
    else Offers(cfg, name, fs[1..])
  }

  /** The offers of each tick. */
  function Feed(cfg: Config, name: string, ticks: seq<Tick>): seq<seq<Packet>> {
    if ticks == [] then []
    else Feed(cfg, name, ticks[..|ticks| - 1]) + [Offers(cfg, name, ticks[|ticks| - 1].frames)]
  }

  function Flat(feed: seq<seq<Packet>>): seq<Packet> {
    if feed == [] then [] else Flat(feed[..|feed| - 1]) + feed[|feed| - 1]
  }

  /** All that a port is offered during some ticks. */
  function Offered(cfg: Config, name: string, ticks: seq<Tick>): seq<Packet> {
    Flat(Feed(cfg, name, ticks))
  }

  // ---------- The reference: a bounded queue ----------

  /** The offers of one tick, or one read. */
  datatype Act = In(offers: seq<Packet>) | Out

  /** What waits, and what was read before. */
  datatype Fifo = Fifo(queue: seq<Packet>, taken: seq<Packet>)

  /** How many of `n` offers find room. */
  function Room(capacity: nat, waiting: nat, n: nat): (r: nat)
    ensures r <= n
  {
    if waiting + n <= capacity then n else if waiting <= capacity then capacity - waiting else 0
  }

  /** The first offers go in as far as there is room; all others are lost. */
  function Admit(capacity: nat, queue: seq<Packet>, offers: seq<Packet>): seq<Packet> {
    queue + offers[..Room(capacity, |queue|, |offers|)]
  }

  function Act1(capacity: nat, f: Fifo, a: Act): Fifo {
    match a
    case In(offers) => f.(queue := Admit(capacity, f.queue, offers))
    case Out => if f.queue == [] then f else Fifo(f.queue[1..], f.taken + [f.queue[0]])
  }

  function Play(capacity: nat, acts: seq<Act>): Fifo {
    if acts == [] then Fifo([], []) else Act1(capacity, Play(capacity, acts[..|acts| - 1]), acts[|acts| - 1])
  }

  function Inputs(acts: seq<Act>): seq<seq<Packet>> {
    if acts == [] then []
    else Inputs(acts[..|acts| - 1]) + (if acts[|acts| - 1].In? then [acts[|acts| - 1].offers] else [])
  }

  lemma PlaySnoc(capacity: nat, acts: seq<Act>, a: Act)
    ensures Play(capacity, acts + [a]) == Act1(capacity, Play(capacity, acts), a)
    ensures Inputs(acts + [a]) == Inputs(acts) + (if a.In? then [a.offers] else [])
  {
    assert (acts + [a])[..|acts|] == acts;
  }

  lemma FlatSnoc(feed: seq<seq<Packet>>, offers: seq<Packet>)
    ensures Flat(feed + [offers]) == Flat(feed) + offers
  {
    assert (feed + [offers])[..|feed|] == feed;
  }

  /** A queue that is offered no more than it can hold loses nothing. */
  lemma {:induction false} NothingLost(capacity: nat, acts: seq<Act>)
    requires |Flat(Inputs(acts))| <= capacity
    ensures Play(capacity, acts).taken + Play(capacity, acts).queue == Flat(Inputs(acts))
    decreases |acts|
  {
    if acts != [] {
      var front, a := acts[..|acts| - 1], acts[|acts| - 1];
      assert acts == front + [a];
      PlaySnoc(capacity, front, a);
      if a.In? {
        FlatSnoc(Inputs(front), a.offers);
      } else {
        assert Inputs(front) + [] == Inputs(front);
      }
      NothingLost(capacity, front);
      Act1Keeps(capacity, Play(capacity, front), a);
    }
  }

  lemma Act1Keeps(capacity: nat, f: Fifo, a: Act)
    requires a.In? ==> |f.queue| + |a.offers| <= capacity
    ensures var g := Act1(capacity, f, a);
            g.taken + g.queue == f.taken + f.queue + (if a.In? then a.offers else [])
  {
    if a.In? {
      assert a.offers[..|a.offers|] == a.offers;
    } else if f.queue != [] {
      assert f.queue == [f.queue[0]] + f.queue[1..];
    }
  }

  // ---------- Arrivals of a tick ----------

  function Data(arrived: seq<Arrival>): (d: seq<Packet>)
    ensures |d| == |arrived|
  {
    if arrived == [] then [] else Data(arrived[..|arrived| - 1]) + [arrived[|arrived| - 1].data]
  }

  /** The port `q` is the port `p` after these offers. */
  ghost predicate TookIn(cfg: Config, p: Port, q: Port, offers: seq<Packet>) {
    && q.name == p.name && q.left == p.left && q.taken == p.taken
    && q.queue == Admit(cfg.capacity, p.queue, offers)
    && Data(q.arrived) == Data(p.arrived) + offers
  }

  lemma TookNothing(cfg: Config, p: Port)
    ensures TookIn(cfg, p, p, [])
  {
    assert p.queue + [] == p.queue && Data(p.arrived) + [] == Data(p.arrived);
  }

  lemma DeliverTakes(cfg: Config, p: Port, data: Packet)
    requires data != [] && cfg.accepts(p.name, data)
    ensures TookIn(cfg, p, Deliver(cfg, p, data), [data])
  {
    var q := Deliver(cfg, p, data);
    assert q.arrived[..|p.arrived|] == p.arrived;
    assert [data][..1] == [data] && [data][..0] == [];
    assert p.queue + [] == p.queue;
  }

  lemma TookThen(cfg: Config, p: Port, q: Port, r: Port, data: Packet, rest: seq<Packet>)
    requires TookIn(cfg, p, q, [data]) && TookIn(cfg, q, r, rest)
    ensures TookIn(cfg, p, r, [data] + rest)
  {
    var offers := [data] + rest;
    AdmitThen(cfg.capacity, p.queue, data, rest);
    assert Data(p.arrived) + [data] + rest == Data(p.arrived) + offers;
  }

  lemma AdmitThen(capacity: nat, queue: seq<Packet>, data: Packet, rest: seq<Packet>)
    ensures Admit(capacity, Admit(capacity, queue, [data]), rest) == Admit(capacity, queue, [data] + rest)
  {
    var offers, n := [data] + rest, Room(capacity, |queue|, 1 + |rest|);
    if |queue| < capacity {
      assert [data][..1] == [data];
      assert offers[..n] == [data] + rest[..n - 1];
      assert queue + [data] + rest[..n - 1] == queue + offers[..n];
    } else {
      assert [data][..0] == [] && rest[..0] == [] && offers[..0] == [];
      assert queue + [] + [] == queue + [];
    }
  }

  lemma {:induction false} FindDistinct(ports: seq<Port>, k: nat)
    requires k < |ports| && DistinctNames(ports)
    ensures FindPort(ports, ports[k].name) == k
  {
  }

  lemma ArriveNames(cfg: Config, ports: seq<Port>, f: Frame)
    requires DistinctNames(ports)
    ensures DistinctNames(Arrive(cfg, ports, f))
    ensures forall k :: 0 <= k < |ports| ==> Arrive(cfg, ports, f)[k].name == ports[k].name
  {
  }

  /** One frame reaches the port it is for, and no other. */
  lemma ArriveAt(cfg: Config, ports: seq<Port>, f: Frame, k: nat)
    requires DistinctNames(ports) && k < |ports|
    ensures TookIn(cfg, ports[k], Arrive(cfg, ports, f)[k],
                 if f.port == ports[k].name && f.data != [] && cfg.accepts(f.port, f.data) then [f.data] else [])
  {
    FindDistinct(ports, k);
    TookNothing(cfg, ports[k]);
    if f.port == ports[k].name && f.data != [] && cfg.accepts(f.port, f.data) {
      DeliverTakes(cfg, ports[k], f.data);
    }
  }

  /** The frames of a tick: each port takes in what is for it, as far as its queue has room. */
  lemma {:induction false} ArriveAllAt(cfg: Config, ports: seq<Port>, fs: seq<Frame>, k: nat)
    requires DistinctNames(ports) && k < |ports|
    ensures TookIn(cfg, ports[k], ArriveAll(cfg, ports, fs)[k], Offers(cfg, ports[k].name, fs))
    decreases |fs|
  {
    if fs == [] {
      TookNothing(cfg, ports[k]);
    } else {
      var next := Arrive(cfg, ports, fs[0]);
      ArriveNames(cfg, ports, fs[0]);
      ArriveAt(cfg, ports, fs[0], k);
      ArriveAllAt(cfg, next, fs[1..], k);
      var r, rest := ArriveAll(cfg, next, fs[1..])[k], Offers(cfg, ports[k].name, fs[1..]);
      if fs[0].port == ports[k].name && fs[0].data != [] && cfg.accepts(fs[0].port, fs[0].data) {
        TookThen(cfg, ports[k], next[k], r, fs[0].data, rest);
      } else {
        assert ports[k].queue + [] == ports[k].queue && Data(ports[k].arrived) + [] == Data(ports[k].arrived);
      }
    }
  }

  // ---------- The invariant of a run ----------

  /** The port is the bounded queue that was fed these ticks, with some reads in between. */
  ghost predicate Follows(cfg: Config, p: Port, ticks: seq<Tick>, acts: seq<Act>) {
    Inputs(acts) == Feed(cfg, p.name, ticks) && Play(cfg.capacity, acts) == Fifo(p.queue, p.taken)
  }

  ghost predicate FedBy(cfg: Config, p: Port, ticks: seq<Tick>) {
    && Data(p.arrived) == Offered(cfg, p.name, ticks)
    && |p.queue| <= cfg.capacity
    && exists acts :: Follows(cfg, p, ticks, acts)
  }

  /** The ticks of `start` that have passed since there were `left` to come, with `now` to come. */
  function Since(start: seq<Tick>, left: nat, now: nat): seq<Tick>
    requires now <= left <= |start|
  {
    start[|start| - left..|start| - now]
  }

  /** Every port of the net was fed what the ticks of `start` brought for it since it was opened. */
  ghost predicate Fed(cfg: Config, start: seq<Tick>, net: Net) {
    && |net.future| <= |start| && net.future == start[|start| - |net.future|..]
    && forall k :: 0 <= k < |net.ports| ==> PortFed(cfg, start, |net.future|, net.ports[k])
  }

  ghost predicate PortFed(cfg: Config, start: seq<Tick>, now: nat, p: Port) {
    now <= p.left <= |start| && FedBy(cfg, p, Since(start, p.left, now))
  }

  lemma FeedSnoc(cfg: Config, name: string, ticks: seq<Tick>, t: Tick)
    ensures Feed(cfg, name, ticks + [t]) == Feed(cfg, name, ticks) + [Offers(cfg, name, t.frames)]
    ensures Offered(cfg, name, ticks + [t]) == Offered(cfg, name, ticks) + Offers(cfg, name, t.frames)
  {
    assert (ticks + [t])[..|ticks|] == ticks;
    FlatSnoc(Feed(cfg, name, ticks), Offers(cfg, name, t.frames));
  }

  /** One more tick. */
  lemma TickFed(cfg: Config, p: Port, q: Port, ticks: seq<Tick>, t: Tick)
    requires FedBy(cfg, p, ticks) && TookIn(cfg, p, q, Offers(cfg, p.name, t.frames))
    ensures FedBy(cfg, q, ticks + [t])
  {
    var o := Offers(cfg, p.name, t.frames);
    var acts :| Follows(cfg, p, ticks, acts);
    FeedSnoc(cfg, p.name, ticks, t);
    PlaySnoc(cfg.capacity, acts, In(o));
    assert Follows(cfg, q, ticks + [t], acts + [In(o)]);
  }

  /** One more read. */
  lemma TakeFed(cfg: Config, p: Port, ticks: seq<Tick>)
    requires FedBy(cfg, p, ticks) && p.queue != []
    ensures FedBy(cfg, TakeFirst(p), ticks)
  {
    var acts :| Follows(cfg, p, ticks, acts);
    PlaySnoc(cfg.capacity, acts, Out);
    assert Inputs(acts) + [] == Inputs(acts);
    assert Follows(cfg, TakeFirst(p), ticks, acts + [Out]);
  }

  lemma NewPortFed(cfg: Config, name: string, left: nat, start: seq<Tick>)
    requires left <= |start|
    ensures PortFed(cfg, start, left, NewPort(name, left))
  {
    assert Since(start, left, left) == [];
    assert Follows(cfg, NewPort(name, left), [], []);
  }

  lemma SinceSnoc(start: seq<Tick>, left: nat, future: seq<Tick>)
    requires 0 < |future| <= left <= |start| && future == start[|start| - |future|..]
    ensures Since(start, left, |future| - 1) == Since(start, left, |future|) + [future[0]]
  {
  }

  lemma ElapseFed(cfg: Config, start: seq<Tick>, net: Net)
    requires DistinctNames(net.ports) && Fed(cfg, start, net)
    ensures Fed(cfg, start, Elapse(cfg, net))
  {
    if net.future != [] {
      var n := Elapse(cfg, net);
      forall k | 0 <= k < |n.ports| ensures PortFed(cfg, start, |n.future|, n.ports[k]) {
        var p := net.ports[k];
        assert PortFed(cfg, start, |net.future|, p);
        ArriveAllAt(cfg, net.ports, net.future[0].frames, k);
        TickFed(cfg, p, n.ports[k], Since(start, p.left, |net.future|), net.future[0]);
        SinceSnoc(start, p.left, net.future);
      }
    }
  }

  lemma ReadFed(cfg: Config, start: seq<Tick>, net: Net, i: nat)
    requires DistinctNames(net.ports) && Fed(cfg, start, net) && i < |net.ports|
    ensures Fed(cfg, start, ReadPort(cfg, net, i).net)
  {
    ElapseFed(cfg, start, net);
    var n := Elapse(cfg, net);
    var p := n.ports[i];
    if p.queue != [] {
      assert PortFed(cfg, start, |n.future|, p);
      TakeFed(cfg, p, Since(start, p.left, |n.future|));
    }
  }

  /** A port that is opened is fed from the next tick on. */
  lemma OpenFed(cfg: Config, start: seq<Tick>, net: Net, port: string)
    requires DistinctNames(net.ports) && Fed(cfg, start, net)
    ensures Fed(cfg, start, Open(cfg, net, port).net)
    ensures FindPort(net.ports, port) == |net.ports| && Open(cfg, net, port).ok ==>
              var n := Open(cfg, net, port).net; n.ports[|net.ports|] == NewPort(port, |n.future|)
  {
    if FindPort(net.ports, port) == |net.ports| {
      ElapseFed(cfg, start, net);
      NewPortFed(cfg, port, |Elapse(cfg, net).future|, start);
    }
  }
}
