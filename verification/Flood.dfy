/**
 The mesh as a whole: servers, the frames on their way between them, and the handler
 tasks that have accepted a frame and not yet passed it on.

 `handle_frame` runs as one task per connection and awaits in the middle, so it is split
 in two steps, `Receive` (remember, learn, offer locally) and `Finish` (act on the local
 answer), and any other steps may come between.  Frames arrive in any order and may be
 lost; ids may be forgotten at any time, which covers expiry, eviction and the passage of
 time.  `trail` and `log` are history variables: no step reads them.
 */
module Flood {
  import opened Base
  import opened Mesh

  datatype Server = Server(
    maxHops: nat, allowed: set<string>, peers: set<string>, seen: set<string>, hints: map<Text, string>)

  /** A relay frame between two servers; `trail` lists the servers it passed, sender last. */
  datatype Link = Link(src: string, dst: string, id: string, packet: Packet, hops: nat, trail: seq<string>)

  /** An accepted message whose handler has not finished; `out` is the budget of its copies. */
  datatype Task = Task(
    server: string, source: Option<string>, id: string, packet: Packet, out: Option<nat>, trail: seq<string>)

  datatype Origin = Origin(server: string, packet: Packet, maxHops: nat)

  datatype Offer = Offer(server: string, id: string, packet: Packet)

  datatype Log = Log(
    origins: map<string, Origin>,
    accepted: map<(string, string), seq<string>>,
    offered: multiset<Offer>,
    forgotten: multiset<(string, string)>,
    sent: multiset<string>,
    reported: set<string>)

  datatype Net = Net(servers: map<string, Server>, flight: seq<Link>, tasks: seq<Task>, log: Log)

  datatype Step =
    | Connect(server: string, expected: Option<string>, peer: string)
    | Disconnect(server: string, peer: string)
    | Forget(server: string, id: string)
    | DropHint(server: string, node: Text)
    | Originate(server: string, id: string, packet: Packet)
    | Receive(k: nat)
    | Finish(k: nat, delivered: bool, hinted: bool, targets: seq<string>)
    | Lose(k: nat)

  function Without<T>(s: seq<T>, k: nat): (r: seq<T>)
    requires k < |s|
  {
    s[..k] + s[k + 1..]
  }

  /** The route-hint table after `learn_route`, before any expiry. */
  function Taught(hints: map<Text, string>, node: Text, peer: string): (r: map<Text, string>) {
    if node == [] || peer == "" then hints else hints[node := peer]
  }

  /** `lookup_route` finds the hint, or finds it expired. */
  function HintFor(server: Server, node: Text, hinted: bool): (r: Option<string>) {
    if hinted && node in server.hints then Some(server.hints[node]) else None
  }

  function Copies(t: Task, targets: seq<string>): (links: seq<Link>)
    requires t.out.Some?
  {
    seq(|targets|, i requires 0 <= i < |targets| => Link(t.server, targets[i], t.id, t.packet, t.out.value, t.trail))
  }

  /** The handler ends without passing the message on. */
  predicate Stops(t: Task, delivered: bool) {
    (t.source.Some? && delivered) || t.out == None
  }

  ghost predicate Enabled(net: Net, step: Step) {
    match step
    case Connect(s, _, _) => s in net.servers
    case Disconnect(s, _) => s in net.servers
    case Forget(s, _) => s in net.servers
    case DropHint(s, _) => s in net.servers
    case Originate(s, id, _) => s in net.servers && id !in net.log.origins
    case Receive(k) => k < |net.flight| && net.flight[k].dst in net.servers
    case Finish(k, delivered, hinted, targets) =>
      && k < |net.tasks|
      && var t := net.tasks[k];
      && t.server in net.servers
      && (!Stops(t, delivered) ==>
            var server := net.servers[t.server];
            Forwards(server.peers, HintFor(server, t.packet.toId, hinted), t.source, targets))
    case Lose(k) => k < |net.flight|
  }

  function Originated(net: Net, s: string, id: string, packet: Packet): (net': Net)
    requires s in net.servers
  {
    var server := net.servers[s];
    net.(servers := net.servers[s := server.(seen := server.seen + {id})],
         tasks := net.tasks + [Task(s, None, id, packet, Some(server.maxHops), [s])],
         log := net.log.(origins := net.log.origins[id := Origin(s, packet, server.maxHops)],
                         accepted := net.log.accepted[(s, id) := [s]]))
  }

  function Received(net: Net, k: nat): (net': Net)
    requires k < |net.flight| && net.flight[k].dst in net.servers
  {
    var l := net.flight[k];
    var server := net.servers[l.dst];
    var rest := net.(flight := Without(net.flight, k));
    if l.id in server.seen then rest else
    var trail := l.trail + [l.dst];
    var out := if l.hops == 0 then None else Some(l.hops - 1);
    rest.(servers := net.servers[l.dst := server.(seen := server.seen + {l.id},
                                                  hints := Taught(server.hints, l.packet.fromId, l.src))],
          tasks := net.tasks + [Task(l.dst, Some(l.src), l.id, l.packet, out, trail)],
          log := net.log.(accepted := net.log.accepted[(l.dst, l.id) := trail],
                          offered := net.log.offered + multiset{Offer(l.dst, l.id, l.packet)}))
  }

  function Finished(net: Net, k: nat, delivered: bool, targets: seq<string>): (net': Net)
    requires k < |net.tasks|
  {
    var t := net.tasks[k];
    var rest := net.(tasks := Without(net.tasks, k));
    if t.source.Some? && delivered then rest.(log := net.log.(reported := net.log.reported + {t.id}))
    else if t.out == None then rest
    else rest.(flight := net.flight + Copies(t, targets),
               log := net.log.(sent := net.log.sent[t.id := net.log.sent[t.id] + |targets|]))
  }

  function Forgotten(net: Net, s: string, id: string): (net': Net)
    requires s in net.servers
  {
    var server := net.servers[s];
    if id !in server.seen then net else
    net.(servers := net.servers[s := server.(seen := server.seen - {id})],
         log := net.log.(forgotten := net.log.forgotten + multiset{(s, id)}))
  }

  function Rewired(net: Net, s: string, peers: set<string>): (net': Net)
    requires s in net.servers
  {
    net.(servers := net.servers[s := net.servers[s].(peers := peers)])
  }

  ghost function Next(net: Net, step: Step): (net': Net)
    requires Enabled(net, step)
  {
    match step
    case Connect(s, expected, peer) =>
      if ValidatePeer(s, net.servers[s].allowed, expected, peer).Ok?
      then Rewired(net, s, net.servers[s].peers + {peer}) else net
    case Disconnect(s, peer) => Rewired(net, s, net.servers[s].peers - {peer})
    case Forget(s, id) => Forgotten(net, s, id)
    case DropHint(s, node) =>
      net.(servers := net.servers[s := net.servers[s].(hints := net.servers[s].hints - {node})])
    case Originate(s, id, packet) => Originated(net, s, id, packet)
    case Receive(k) => Received(net, k)
    case Finish(k, delivered, _, targets) => Finished(net, k, delivered, targets)
    case Lose(k) => net.(flight := Without(net.flight, k))
  }

  /** Servers as configured, connected in some way, with no message anywhere yet. */
  ghost predicate Initial(net: Net) {
    && net.flight == [] && net.tasks == []
    && net.log == Log(map[], map[], multiset{}, multiset{}, multiset{}, {})
    && forall s <- net.servers ::
         var server := net.servers[s];
         server.peers <= server.allowed && s !in server.peers && server.seen == {} && server.hints == map[]
  }

  ghost predicate Stepped(nets: seq<Net>, steps: seq<Step>, i: nat)
    requires i < |steps| && |nets| == |steps| + 1
  {
    Enabled(nets[i], steps[i]) && nets[i + 1] == Next(nets[i], steps[i])
  }

  ghost predicate Run(nets: seq<Net>, steps: seq<Step>) {
    && |nets| == |steps| + 1
    && Initial(nets[0])
    && forall i | 0 <= i < |steps| :: Stepped(nets, steps, i)
  }

  // ---------------------------------------------------------------- frame integrity

  /** Every hop of a trail goes to a server that its sender allows. */
  predicate TrailAllowed(servers: map<string, Server>, trail: seq<string>) {
    forall i | 0 <= i < |trail| - 1 :: trail[i] in servers && trail[i + 1] in servers[trail[i]].allowed
  }

  predicate From(net: Net, id: string, packet: Packet, trail: seq<string>) {
    && id in net.log.origins
    && packet == net.log.origins[id].packet
    && trail != []
    && trail[0] == net.log.origins[id].server
    && trail[|trail| - 1] in net.servers
    && TrailAllowed(net.servers, trail)
  }

  function CameFrom(trail: seq<string>): (r: Option<string>) {
    if |trail| < 2 then None else Some(trail[|trail| - 2])
  }

  /**
   A frame carries what its origin sent, has used one hop per link behind it, and is on
   its way to an allowed peer that is not the one its sender had it from.
   */
  predicate LinkSound(net: Net, l: Link) {
    && From(net, l.id, l.packet, l.trail)
    && l.src == l.trail[|l.trail| - 1]
    && l.hops + |l.trail| == net.log.origins[l.id].maxHops + 1
    && l.dst in net.servers[l.src].allowed
    && Some(l.dst) != CameFrom(l.trail)
  }

  predicate TaskSound(net: Net, t: Task) {
    && From(net, t.id, t.packet, t.trail)
    && t.server == t.trail[|t.trail| - 1]
    && t.source == CameFrom(t.trail)
    && t.out == (var max := net.log.origins[t.id].maxHops;
                 if |t.trail| > max + 1 then None else Some(max + 1 - |t.trail|))
  }

  predicate OfferSound(net: Net, o: Offer) {
    o.id in net.log.origins && o.packet == net.log.origins[o.id].packet
  }

  /**
   A server offers a message locally once each time it takes it as new: the offers, and
   the origin's own first sight, equal the forgettings plus one while the id is held.
   */
  predicate Counted(net: Net, s: string, id: string)
    requires s in net.servers
  {
    if id in net.log.origins then
      var o := net.log.origins[id];
      net.log.offered[Offer(s, id, o.packet)] + (if o.server == s then 1 else 0)
      == net.log.forgotten[(s, id)] + (if id in net.servers[s].seen then 1 else 0)
    else
      id !in net.servers[s].seen && net.log.forgotten[(s, id)] == 0
  }

  ghost predicate Sound(net: Net) {
    && (forall s <- net.servers :: net.servers[s].peers <= net.servers[s].allowed && s !in net.servers[s].peers)
    && (forall l <- net.flight :: LinkSound(net, l))
    && (forall t <- net.tasks :: TaskSound(net, t))
    && (forall o <- net.log.offered :: OfferSound(net, o))
    && (forall s <- net.servers, id: string :: Counted(net, s, id))
  }

  /** The configuration never changes and a message keeps its origin. */
  ghost predicate Stable(net: Net, net': Net) {
    && net'.servers.Keys == net.servers.Keys
    && (forall s <- net.servers :: net'.servers[s].allowed == net.servers[s].allowed
                                && net'.servers[s].maxHops == net.servers[s].maxHops)
    && (forall id <- net.log.origins :: id in net'.log.origins && net'.log.origins[id] == net.log.origins[id])
  }

  lemma NextStable(net: Net, step: Step)
    requires Enabled(net, step)
    ensures Stable(net, Next(net, step))
  {
  }

  lemma StaysSound(net: Net, net': Net)
    requires Sound(net) && Stable(net, net')
    ensures forall l <- net.flight :: LinkSound(net', l)
    ensures forall t <- net.tasks :: TaskSound(net', t)
    ensures forall o <- net.log.offered :: OfferSound(net', o)
  {
    forall l <- net.flight
      ensures LinkSound(net', l)
    {
      assert LinkSound(net, l);
    }
    forall t <- net.tasks
      ensures TaskSound(net', t)
    {
      assert TaskSound(net, t);
    }
  }

  lemma OriginateCounts(net: Net, s: string, id: string, packet: Packet, r: string, m: string)
    requires Sound(net) && s in net.servers && id !in net.log.origins && r in net.servers
    ensures Counted(Originated(net, s, id, packet), r, m)
  {
    assert Counted(net, r, m);
    if m == id {
      assert Offer(r, id, packet) !in net.log.offered;
    }
  }

  lemma OriginateSound(net: Net, s: string, id: string, packet: Packet)
    requires Sound(net) && s in net.servers && id !in net.log.origins
    ensures Sound(Originated(net, s, id, packet))
  {
    var net' := Originated(net, s, id, packet);
    StaysSound(net, net');
    forall r <- net'.servers, m: string
      ensures Counted(net', r, m)
    {
      OriginateCounts(net, s, id, packet, r, m);
    }
  }

  lemma ReceiveCounts(net: Net, k: nat)
    requires Sound(net) && k < |net.flight| && net.flight[k].dst in net.servers
    ensures var net' := Received(net, k);
            forall s <- net'.servers, id: string :: Counted(net', s, id)
  {
    var net' := Received(net, k);
    var l := net.flight[k];
    assert LinkSound(net, l);
    forall r <- net'.servers, m: string
      ensures Counted(net', r, m)
    {
      assert Counted(net, r, m);
    }
  }

  lemma AcceptedTaskSound(net: Net, k: nat)
    requires Sound(net) && k < |net.flight| && net.flight[k].dst in net.servers
    requires net.flight[k].id !in net.servers[net.flight[k].dst].seen
    ensures TaskSound(Received(net, k), Received(net, k).tasks[|net.tasks|])
  {
    var l := net.flight[k];
    assert LinkSound(net, l);
    assert TrailAllowed(Received(net, k).servers, l.trail + [l.dst]);
  }

  lemma ReceiveSound(net: Net, k: nat)
    requires Sound(net) && k < |net.flight| && net.flight[k].dst in net.servers
    ensures Sound(Received(net, k))
  {
    var net' := Received(net, k);
    assert LinkSound(net, net.flight[k]);
    StaysSound(net, net');
    ReceiveCounts(net, k);
    if net.flight[k].id !in net.servers[net.flight[k].dst].seen {
      AcceptedTaskSound(net, k);
    }
  }

  lemma FinishSound(net: Net, k: nat, delivered: bool, hinted: bool, targets: seq<string>)
    requires Sound(net) && Enabled(net, Finish(k, delivered, hinted, targets))
    ensures Sound(Finished(net, k, delivered, targets))
  {
    var net' := Finished(net, k, delivered, targets);
    var t := net.tasks[k];
    assert TaskSound(net, t);
    StaysSound(net, net');
    if !Stops(t, delivered) {
      var copies := Copies(t, targets);
      forall l <- copies
        ensures LinkSound(net', l)
      {
        var i :| 0 <= i < |targets| && l == copies[i];
        assert targets[i] in targets;
        assert targets[i] in net.servers[t.server].peers;
      }
    }
    forall r <- net'.servers, m: string
      ensures Counted(net', r, m)
    {
      assert Counted(net, r, m);
    }
  }

  lemma ForgetSound(net: Net, s: string, id: string)
    requires Sound(net) && s in net.servers
    ensures Sound(Forgotten(net, s, id))
  {
    var net' := Forgotten(net, s, id);
    StaysSound(net, net');
    forall r <- net'.servers, m: string
      ensures Counted(net', r, m)
    {
      assert Counted(net, r, m);
    }
  }

  lemma LoseSound(net: Net, k: nat)
    requires Sound(net) && k < |net.flight|
    ensures Sound(net.(flight := Without(net.flight, k)))
  {
    var net' := net.(flight := Without(net.flight, k));
    StaysSound(net, net');
    forall r <- net'.servers, m: string
      ensures Counted(net', r, m)
    {
      assert Counted(net, r, m);
    }
  }

  /** A server's connections or hints change, and nothing else. */
  lemma ServerChangeSound(net: Net, s: string, server: Server)
    requires Sound(net) && s in net.servers
    requires server.(peers := net.servers[s].peers, hints := net.servers[s].hints) == net.servers[s]
    requires server.peers <= server.allowed && s !in server.peers
    ensures Sound(net.(servers := net.servers[s := server]))
  {
    var net' := net.(servers := net.servers[s := server]);
    StaysSound(net, net');
    forall r <- net'.servers, m: string
      ensures Counted(net', r, m)
    {
      assert Counted(net, r, m);
    }
  }

  /** A step that moves no message and forgets none. */
  lemma PlainStepSound(net: Net, step: Step)
    requires Sound(net) && Enabled(net, step)
    requires step.Connect? || step.Disconnect? || step.DropHint?
    ensures Sound(Next(net, step))
  {
    var net' := Next(net, step);
    if net' != net {
      ServerChangeSound(net, step.server, net'.servers[step.server]);
    }
  }

  lemma NextSound(net: Net, step: Step)
    requires Sound(net) && Enabled(net, step)
    ensures Sound(Next(net, step))
  {
    match step
    case Originate(s, id, packet) => OriginateSound(net, s, id, packet);
    case Receive(k) => ReceiveSound(net, k);
    case Finish(k, delivered, hinted, targets) => FinishSound(net, k, delivered, hinted, targets);
    case Forget(s, id) => ForgetSound(net, s, id);
    case Lose(k) => LoseSound(net, k);
    case _ => PlainStepSound(net, step);
  }

  lemma StableTransitive(a: Net, b: Net, c: Net)
    requires Stable(a, b) && Stable(b, c)
    ensures Stable(a, c)
  {
  }

  /** Frame integrity holds in every state of every run. */
  lemma {:induction false} RunSound(nets: seq<Net>, steps: seq<Step>, n: nat)
    requires Run(nets, steps) && n <= |steps|
    ensures Sound(nets[n])
    ensures Stable(nets[0], nets[n])
  {
    if n > 0 {
      RunSound(nets, steps, n - 1);
      assert Stepped(nets, steps, n - 1);
      NextSound(nets[n - 1], steps[n - 1]);
      NextStable(nets[n - 1], steps[n - 1]);
      StableTransitive(nets[0], nets[n - 1], nets[n]);
    }
  }

  /**
   What is offered to the local relay was originated as such, and a server offers it at
   most once more often than it forgot the id; the origin offers it only after forgetting.
   */
  lemma OffersMatchOrigins(nets: seq<Net>, steps: seq<Step>, n: nat, o: Offer)
    requires Run(nets, steps) && n <= |steps| && o.server in nets[n].servers
    ensures o in nets[n].log.offered ==>
              o.id in nets[n].log.origins && o.packet == nets[n].log.origins[o.id].packet
    ensures nets[n].log.offered[o] <= nets[n].log.forgotten[(o.server, o.id)] + 1
    ensures o.id in nets[n].log.origins && nets[n].log.origins[o.id].server == o.server ==>
              nets[n].log.offered[o] <= nets[n].log.forgotten[(o.server, o.id)]
  {
    RunSound(nets, steps, n);
    assert Counted(nets[n], o.server, o.id);
    if o in nets[n].log.offered {
      assert OfferSound(nets[n], o);
    }
  }
}
