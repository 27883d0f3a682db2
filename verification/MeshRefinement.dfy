/**
 A server of module Mesh is a server of module Flood.  What the flood model leaves open
 (an id or a hint may be forgotten at any time) covers what the tables of a real server
 do: expiry, the passage of time, and eviction when a table is full.
 */
module MeshRefinement {
  import opened Base
  import opened SeenCache
  import opened Mesh
  import opened Flood

  function Refused(seen: map<string, nat>, now: nat): (ids: set<string>) {
    set id | id in seen && !Accepts(seen, id, now)
  }

  function NextHops(hints: map<Text, RouteHint>): (m: map<Text, string>) {
    map node | node in hints :: hints[node].peer
  }

  /** What a server's tables mean at time `now`. */
  function Abstract(maxHops: nat, allowed: set<string>, peers: map<string, nat>,
                    seen: map<string, nat>, hints: map<Text, RouteHint>, now: nat): (server: Server)
  {
    Server(maxHops, allowed, peers.Keys, Refused(seen, now), NextHops(hints))
  }

  /** The same server with some ids and hints forgotten. */
  ghost predicate Lessened(less: Server, more: Server) {
    && less.maxHops == more.maxHops && less.allowed == more.allowed && less.peers == more.peers
    && less.seen <= more.seen
    && Submap(less.hints, more.hints)
  }

  /** Time passing only forgets. */
  lemma TimeLessens(maxHops: nat, allowed: set<string>, peers: map<string, nat>,
                    seen: map<string, nat>, hints: map<Text, RouteHint>, now: nat, later: nat)
    requires now <= later
    ensures Lessened(Abstract(maxHops, allowed, peers, seen, hints, later),
                     Abstract(maxHops, allowed, peers, seen, hints, now))
  {
  }

  /** Remembering refuses no more ids than before and the new one. */
  lemma SeenRefines(seen: map<string, nat>, id: string, now: nat, seen': map<string, nat>, accepted: bool)
    requires Remembers(seen, id, now, seen', accepted)
    ensures Refused(seen', now) <= Refused(seen, now) + {id}
    ensures !accepted ==> seen' == seen
    ensures accepted <==> id !in Refused(seen, now)
  {
    forall x | x in Refused(seen', now)
      ensures x in Refused(seen, now) + {id}
    {
      assert accepted ==> x in seen[id := now] && seen'[x] == seen[id := now][x];
    }
  }

  /** Learning adds no other hint than the one learned. */
  lemma HintsRefine(hints: map<Text, RouteHint>, node: Text, peer: string, now: nat, hints': map<Text, RouteHint>)
    requires Learns(hints, node, peer, now, hints')
    ensures Submap(NextHops(hints'), Taught(NextHops(hints), node, peer))
  {
    forall x | x in hints'
      ensures x in Taught(NextHops(hints), node, peer) && NextHops(hints')[x] == Taught(NextHops(hints), node, peer)[x]
    {
      if node != [] && peer != "" {
        assert x in hints[node := RouteHint(peer, now)] && hints'[x] == hints[node := RouteHint(peer, now)][x];
      }
    }
  }

  /** The first half of `handle_frame` is a Receive step, followed by forgetting. */
  lemma HandlingRefinesReceive(
      net: Net, k: nat, peers: map<string, nat>, seen: map<string, nat>, hints: map<Text, RouteHint>,
      seenAt: nat, learnAt: nat, seen': map<string, nat>, hints': map<Text, RouteHint>, accepted: bool)
    requires Enabled(net, Receive(k))
    requires var l := net.flight[k];
             var server := net.servers[l.dst];
             && server == Abstract(server.maxHops, server.allowed, peers, seen, hints, seenAt)
             && Remembers(seen, l.id, seenAt, seen', accepted)
             && (if accepted then Learns(hints, l.packet.fromId, l.src, learnAt, hints') else hints' == hints)
    ensures var l := net.flight[k];
            var server := net.servers[l.dst];
            && accepted == (l.id !in server.seen)
            && Lessened(Abstract(server.maxHops, server.allowed, peers, seen', hints', seenAt),
                        Received(net, k).servers[l.dst])
  {
    var l := net.flight[k];
    SeenRefines(seen, l.id, seenAt, seen', accepted);
    if accepted {
      HintsRefine(hints, l.packet.fromId, l.src, learnAt, hints');
    }
  }

  /** `lookup_route` answers with the hint of the abstract table, or with none. */
  lemma LookupRefinesHint(server: Server, hints: map<Text, RouteHint>, node: Text, now: nat,
                          hints': map<Text, RouteHint>, hint: Option<string>)
    requires server.hints == NextHops(hints) && LooksUp(hints, node, now, hints', hint)
    ensures hint == HintFor(server, node, hint.Some?)
    ensures Submap(NextHops(hints'), server.hints)
  {
  }

  /** The head of the origin loop is an Originate step, followed by forgetting. */
  lemma OriginatingRefinesOriginate(
      net: Net, s: string, id: string, packet: Packet, peers: map<string, nat>,
      seen: map<string, nat>, hints: map<Text, RouteHint>, seenAt: nat, seen': map<string, nat>, accepted: bool)
    requires Enabled(net, Originate(s, id, packet))
    requires var server := net.servers[s];
             && server == Abstract(server.maxHops, server.allowed, peers, seen, hints, seenAt)
             && Remembers(seen, id, seenAt, seen', accepted)
    ensures var server := net.servers[s];
            Lessened(Abstract(server.maxHops, server.allowed, peers, seen', hints, seenAt),
                     Originated(net, s, id, packet).servers[s])
  {
    SeenRefines(seen, id, seenAt, seen', accepted);
  }

  /** The link is the frame on its way from the server to the peer it is sent to. */
  predicate Carries(l: Link, server: string, send: Send) {
    send.frame.Relay? && l.src == server && l.dst == send.peer && Relay(l.id, l.packet, l.hops) == send.frame
  }

  /**
   Forwarding, of a received message as well as of an own one, is a Finish step that is
   enabled: the frames that `forward_to_target` sends are the links that the step adds.
   */
  lemma ForwardingRefinesFinish(
      net: Net, k: nat, delivered: bool, peers: map<string, nat>, hints: map<Text, RouteHint>, now: nat,
      hints': map<Text, RouteHint>, hint: Option<string>, targets: seq<string>)
    requires k < |net.tasks| && net.tasks[k].server in net.servers && !Stops(net.tasks[k], delivered)
    requires var t := net.tasks[k];
             var server := net.servers[t.server];
             && server.peers == peers.Keys && server.hints == NextHops(hints)
             && LooksUp(hints, t.packet.toId, now, hints', hint) && Forwards(peers.Keys, hint, t.source, targets)
    ensures var t, step := net.tasks[k], Finish(k, delivered, hint.Some?, targets);
            var sends := Addressed(targets, Relay(t.id, t.packet, t.out.value));
            && Enabled(net, step)
            && |Next(net, step).flight| == |net.flight| + |sends| && net.flight <= Next(net, step).flight
            && forall i | 0 <= i < |sends| :: Carries(Next(net, step).flight[|net.flight| + i], t.server, sends[i])
  {
    LookupRefinesHint(net.servers[net.tasks[k].server], hints, net.tasks[k].packet.toId, now, hints', hint);
  }

  /** Some steps lead from one state of the mesh to another. */
  ghost predicate Leads(net: Net, steps: seq<Step>, net': Net)
    decreases |steps|
  {
    if steps == [] then net' == net
    else Enabled(net, steps[0]) && Leads(Next(net, steps[0]), steps[1..], net')
  }

  predicate Forgetful(step: Step) {
    step.Forget? || step.DropHint?
  }

  ghost function Surplus(more: Server, less: Server): (n: nat) {
    |more.seen - less.seen| + |more.hints.Keys - less.hints.Keys|
  }

  /** The two differ in the tables of `s` and in the count of forgotten ids only. */
  ghost predicate SameBut(net: Net, net': Net, s: string) {
    && net'.servers.Keys == net.servers.Keys
    && (forall r <- net.servers | r != s :: net'.servers[r] == net.servers[r])
    && net'.flight == net.flight && net'.tasks == net.tasks
    && net'.log.(forgotten := net.log.forgotten) == net.log
  }

  lemma ForgetOne(net: Net, s: string, less: Server, id: string)
    requires s in net.servers && Lessened(less, net.servers[s])
    requires id in net.servers[s].seen && id !in less.seen
    ensures var net' := Next(net, Forget(s, id));
            && SameBut(net, net', s) && Lessened(less, net'.servers[s])
            && Surplus(net'.servers[s], less) < Surplus(net.servers[s], less)
  {
    var more := net.servers[s];
    assert (more.seen - {id}) - less.seen == (more.seen - less.seen) - {id};
  }

  lemma DropOne(net: Net, s: string, less: Server, node: Text)
    requires s in net.servers && Lessened(less, net.servers[s])
    requires node in net.servers[s].hints && node !in less.hints
    ensures var net' := Next(net, DropHint(s, node));
            && SameBut(net, net', s) && Lessened(less, net'.servers[s])
            && Surplus(net'.servers[s], less) < Surplus(net.servers[s], less)
  {
    var more := net.servers[s];
    assert (more.hints - {node}).Keys - less.hints.Keys == (more.hints.Keys - less.hints.Keys) - {node};
  }

  /** Forgetting is nothing but Forget and DropHint steps, and touches nothing else. */
  lemma {:induction false} LessenedIsForgetting(net: Net, s: string, less: Server) returns (steps: seq<Step>, net': Net)
    requires s in net.servers && Lessened(less, net.servers[s])
    ensures Leads(net, steps, net') && forall step <- steps :: Forgetful(step)
    ensures SameBut(net, net', s) && net'.servers[s] == less
    decreases Surplus(net.servers[s], less)
  {
    var more := net.servers[s];
    var step;
    if id :| id in more.seen && id !in less.seen {
      step := Forget(s, id);
      ForgetOne(net, s, less, id);
    } else if node :| node in more.hints && node !in less.hints {
      step := DropHint(s, node);
      DropOne(net, s, less, node);
    } else {
      assert less.hints == more.hints;
      return [], net;
    }
    var rest;
    rest, net' := LessenedIsForgetting(Next(net, step), s, less);
    steps := [step] + rest;
  }
}
