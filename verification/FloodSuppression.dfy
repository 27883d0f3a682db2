/**
 Duplicate suppression costs coverage.  A copy that comes first over a long path is the one
 that counts, so a server can end up without the message although it is well within the
 hop budget of the origin.
 */
module FloodSuppression {
  import opened Base
  import opened Mesh
  import opened Flood
  import opened FloodTermination
  import opened FloodCoverage
  import opened FloodTightness

  // ---------------------------------------------------------------- cut off

  /** The gate has the message, will not pass it on, and is the only way to the server behind it. */
  ghost predicate CutOff(net: Net, m: string, gate: string, behind: string) {
    && gate in net.servers && behind in net.servers && gate != behind && m in net.log.origins
    && m in net.servers[gate].seen && m !in net.servers[behind].seen
    && (forall s <- net.servers :: behind in net.servers[s].allowed ==> s == gate)
    && (forall l <- net.flight :: l.id == m ==> l.src != gate)
    && (forall t <- net.tasks :: t.id == m && t.server == gate ==> t.out == None)
  }

  lemma ReceiveKeepsCut(net: Net, k: nat, m: string, gate: string, behind: string)
    requires Sound(net) && CutOff(net, m, gate, behind) && k < |net.flight| && net.flight[k].dst in net.servers
    ensures CutOff(Received(net, k), m, gate, behind)
  {
    assert LinkSound(net, net.flight[k]);
  }

  lemma FinishKeepsCut(net: Net, k: nat, delivered: bool, targets: seq<string>, m: string, gate: string, behind: string)
    requires CutOff(net, m, gate, behind) && k < |net.tasks|
    ensures CutOff(Finished(net, k, delivered, targets), m, gate, behind)
  {
    var t := net.tasks[k];
    assert t in net.tasks;
    if !Stops(t, delivered) {
      forall l <- Copies(t, targets)
        ensures l.id == m ==> l.src != gate
      {
      }
    }
  }

  lemma OtherKeepsCut(net: Net, step: Step, m: string, target: Text, gate: string, behind: string)
    requires CutOff(net, m, gate, behind) && Enabled(net, step) && Quiet(net, step, m, target)
    requires !step.Receive? && !step.Finish?
    ensures CutOff(Next(net, step), m, gate, behind)
  {
  }

  lemma StepKeepsCut(net: Net, step: Step, m: string, target: Text, gate: string, behind: string)
    requires Sound(net) && CutOff(net, m, gate, behind) && Enabled(net, step) && Quiet(net, step, m, target)
    ensures CutOff(Next(net, step), m, gate, behind)
  {
    match step
    case Receive(k) => ReceiveKeepsCut(net, k, m, gate, behind);
    case Finish(k, delivered, _, targets) => FinishKeepsCut(net, k, delivered, targets, m, gate, behind);
    case _ => OtherKeepsCut(net, step, m, target, gate, behind);
  }

  /** Once cut off, always cut off. */
  lemma {:induction false} CutStays(nets: seq<Net>, steps: seq<Step>, i: nat, n: nat, m: string, target: Text,
                                    gate: string, behind: string)
    requires QuietRun(nets, steps, m, target) && i <= n <= |steps| && CutOff(nets[i], m, gate, behind)
    ensures CutOff(nets[n], m, gate, behind)
  {
    if i < n {
      CutStays(nets, steps, i, n - 1, m, target, gate, behind);
      RunSound(nets, steps, n - 1);
      assert Stepped(nets, steps, n - 1) && QuietAt(nets, steps, n - 1, m, target);
      StepKeepsCut(nets[n - 1], steps[n - 1], m, target, gate, behind);
    }
  }

  // ---------------------------------------------------------------- along a path

  /** The steps before and after a copy is passed on leave everything else alone. */
  ghost predicate SameMesh(net: Net, net': Net) {
    && net'.servers.Keys == net.servers.Keys && net'.log.reported == net.log.reported
    && (forall s <- net.servers :: && net'.servers[s].peers == net.servers[s].peers
                                   && net'.servers[s].allowed == net.servers[s].allowed)
    && (forall id <- net.log.origins :: id in net'.log.origins && net'.log.origins[id] == net.log.origins[id])
  }

  /** A copy is on its way along the `i`-th link of the path, and nobody further on has the message. */
  ghost predicate OnItsWay(net: Net, path: seq<string>, i: nat, m: string, hops: nat)
    requires 0 < i < |path|
  {
    && net.tasks == []
    && (exists l :: l in net.flight && l.id == m && l.src == path[i - 1] && l.dst == path[i] && l.hops == hops)
    && (forall s <- net.servers :: m in net.servers[s].seen ==> s in path[..i])
  }

  /** The servers of the path are different and connected. */
  ghost predicate Route(servers: map<string, Server>, path: seq<string>) {
    && Walk(servers, path)
    && (forall i, j | 0 <= i < j < |path| :: path[i] != path[j])
  }

  lemma NotYet(path: seq<string>, i: nat)
    requires i < |path| && forall a, b | 0 <= a < b < |path| :: path[a] != path[b]
    ensures path[i] !in path[..i]
  {
  }

  lemma Taken(net: Net, k: nat, path: seq<string>, i: nat, m: string)
    requires net.tasks == [] && k < |net.flight| && 0 < i < |path|
    requires var l := net.flight[k]; l.id == m && l.src == path[i - 1] && l.dst == path[i] && l.dst in net.servers
    requires m !in net.servers[path[i]].seen
    requires forall s <- net.servers :: m in net.servers[s].seen ==> s in path[..i]
    ensures var net', l := Received(net, k), net.flight[k];
            && SameMesh(net, net') && |net'.tasks| == 1 && net'.flight == Without(net.flight, k)
            && net'.tasks[0].id == m && net'.tasks[0].server == path[i] && net'.tasks[0].source == Some(path[i - 1])
            && net'.tasks[0].out == (if l.hops == 0 then None else Some(l.hops - 1))
            && (forall s <- net'.servers :: m in net'.servers[s].seen ==> s in path[..i + 1])
            && m in net'.servers[path[i]].seen
  {
    assert path[..i + 1] == path[..i] + [path[i]];
  }

  lemma PassedAlong(net: Net, targets: seq<string>, next: string)
    requires |net.tasks| == 1 && net.tasks[0].out.Some? && next in targets
    ensures var net', t := Finished(net, 0, false, targets), net.tasks[0];
            && SameMesh(net, net') && net'.tasks == [] && net'.servers == net.servers
            && exists l :: && l in net'.flight && l.id == t.id
                           && l.src == t.server && l.dst == next && l.hops == t.out.value
  {
    var t := net.tasks[0];
    var i :| 0 <= i < |targets| && targets[i] == next;
    var l := Copies(t, targets)[i];
    assert l in Finished(net, 0, false, targets).flight;
  }

  /** The only handler passes its message on to everybody but the sender. */
  lemma FinishTo(net: Net, next: string) returns (step: Step)
    requires Sound(net) && |net.tasks| == 1 && net.tasks[0].server in net.servers
    requires next in net.servers[net.tasks[0].server].peers && Some(next) != net.tasks[0].source
    ensures step.Finish? && step.k == 0 && !step.delivered && Enabled(net, step) && next in step.targets
  {
    var t := net.tasks[0];
    var targets := Enumerate(set v | v in net.servers[t.server].peers && Some(v) != t.source);
    step := Finish(0, false, false, targets);
  }

  lemma Arrives(net: Net, path: seq<string>, i: nat, m: string, hops: nat) returns (k: nat)
    requires 0 < i < |path| && Route(net.servers, path) && OnItsWay(net, path, i, m, hops)
    ensures k < |net.flight| && Enabled(net, Receive(k)) && m !in net.servers[path[i]].seen
    ensures var l := net.flight[k]; l.id == m && l.src == path[i - 1] && l.dst == path[i] && l.hops == hops
  {
    var l :| l in net.flight && l.id == m && l.src == path[i - 1] && l.dst == path[i] && l.hops == hops;
    k :| 0 <= k < |net.flight| && net.flight[k] == l;
    assert path[i] in path;
    NotYet(path, i);
  }

  /** The copy that is on its way arrives first. */
  lemma TakeIt(nets: seq<Net>, steps: seq<Step>, path: seq<string>, i: nat, m: string, target: Text, hops: nat)
    returns (nets': seq<Net>, steps': seq<Step>)
    requires QuietRun(nets, steps, m, target) && 0 < i < |path|
    requires Route(nets[|steps|].servers, path) && OnItsWay(nets[|steps|], path, i, m, hops)
    ensures QuietRun(nets', steps', m, target) && nets <= nets' && SameMesh(nets[|steps|], nets'[|steps'|])
    ensures Handling(nets'[|steps'|], path, i, m, hops) && Sound(nets'[|steps'|])
    ensures forall l <- nets'[|steps'|].flight :: l in nets[|steps|].flight
  {
    var net := nets[|steps|];
    var k := Arrives(net, path, i, m, hops);
    Taken(net, k, path, i, m);
    nets', steps' := GoOn(nets, steps, m, target, Receive(k));
  }

  /** The message was taken by the `i`-th server, which has not finished handling it. */
  ghost predicate Handling(net: Net, path: seq<string>, i: nat, m: string, hops: nat)
    requires 0 < i < |path|
  {
    && |net.tasks| == 1 && net.tasks[0].id == m
    && net.tasks[0].server == path[i] && net.tasks[0].source == Some(path[i - 1])
    && net.tasks[0].out == (if hops == 0 then None else Some(hops - 1))
    && path[i] in net.servers && m in net.servers[path[i]].seen
    && (forall s <- net.servers :: m in net.servers[s].seen ==> s in path[..i + 1])
  }

  /** The server passes it on, along the path among others. */
  lemma PassIt(nets: seq<Net>, steps: seq<Step>, path: seq<string>, i: nat, m: string, target: Text, hops: nat)
    returns (nets': seq<Net>, steps': seq<Step>)
    requires QuietRun(nets, steps, m, target) && 0 < i && i + 1 < |path| && hops > 0
    requires Route(nets[|steps|].servers, path) && Handling(nets[|steps|], path, i, m, hops) && Sound(nets[|steps|])
    ensures QuietRun(nets', steps', m, target) && nets <= nets' && SameMesh(nets[|steps|], nets'[|steps'|])
    ensures OnItsWay(nets'[|steps'|], path, i + 1, m, hops - 1)
  {
    var step := FinishTo(nets[|steps|], path[i + 1]);
    PassedAlong(nets[|steps|], step.targets, path[i + 1]);
    nets', steps' := GoOn(nets, steps, m, target, step);
  }

  /** One link further. */
  lemma OneFurther(nets: seq<Net>, steps: seq<Step>, path: seq<string>, i: nat, m: string, target: Text, hops: nat)
    returns (nets': seq<Net>, steps': seq<Step>)
    requires QuietRun(nets, steps, m, target) && 0 < i && i + 1 < |path| && hops > 0
    requires Route(nets[|steps|].servers, path) && OnItsWay(nets[|steps|], path, i, m, hops)
    ensures QuietRun(nets', steps', m, target) && nets <= nets' && SameMesh(nets[|steps|], nets'[|steps'|])
    ensures OnItsWay(nets'[|steps'|], path, i + 1, m, hops - 1)
  {
    var nets1, steps1 := TakeIt(nets, steps, path, i, m, target, hops);
    RouteStays(nets[|steps|], nets1[|steps1|], path);
    nets', steps' := PassIt(nets1, steps1, path, i, m, target, hops);
    SameMeshTransitive(nets[|steps|], nets1[|steps1|], nets'[|steps'|]);
  }

  lemma RouteStays(net: Net, net': Net, path: seq<string>)
    requires Route(net.servers, path) && SameMesh(net, net')
    ensures Route(net'.servers, path)
  {
  }

  lemma SameMeshTransitive(a: Net, b: Net, c: Net)
    requires SameMesh(a, b) && SameMesh(b, c)
    ensures SameMesh(a, c)
  {
  }

  /** To the last link of the path. */
  lemma {:induction false} ToTheEnd(nets: seq<Net>, steps: seq<Step>, path: seq<string>, i: nat, m: string,
                                    target: Text)
    returns (nets': seq<Net>, steps': seq<Step>)
    requires QuietRun(nets, steps, m, target) && 0 < i < |path|
    requires Route(nets[|steps|].servers, path) && OnItsWay(nets[|steps|], path, i, m, |path| - 1 - i)
    ensures QuietRun(nets', steps', m, target) && nets <= nets' && SameMesh(nets[|steps|], nets'[|steps'|])
    ensures OnItsWay(nets'[|steps'|], path, |path| - 1, m, 0)
    decreases |path| - i
  {
    if i == |path| - 1 {
      nets', steps' := nets, steps;
    } else {
      var nets1, steps1 := OneFurther(nets, steps, path, i, m, target, |path| - 1 - i);
      RouteStays(nets[|steps|], nets1[|steps1|], path);
      nets', steps' := ToTheEnd(nets1, steps1, path, i + 1, m, target);
      SameMeshTransitive(nets[|steps|], nets1[|steps1|], nets'[|steps'|]);
    }
  }

  /** Nobody who lacks the message has sent it on. */
  lemma NoSender(nets: seq<Net>, steps: seq<Step>, m: string, target: Text, gate: string)
    requires QuietRun(nets, steps, m, target) && gate in nets[|steps|].servers && m !in nets[|steps|].servers[gate].seen
    ensures forall l <- nets[|steps|].flight :: l.id == m ==> l.src != gate
  {
    RunSpreads(nets, steps, |steps|, m, target);
    forall l <- nets[|steps|].flight
      ensures l.id == m ==> l.src != gate
    {
      assert LinkTracked(nets[|steps|], m, l);
    }
  }

  /** The copy with no hop left arrives at the end of the path, and what is behind is cut off. */
  lemma Closes(nets: seq<Net>, steps: seq<Step>, path: seq<string>, m: string, target: Text, behind: string)
    returns (nets': seq<Net>, steps': seq<Step>)
    requires QuietRun(nets, steps, m, target) && |path| > 1 && m in nets[|steps|].log.origins
    requires Route(nets[|steps|].servers, path) && OnItsWay(nets[|steps|], path, |path| - 1, m, 0)
    requires behind in nets[|steps|].servers && behind !in path
    requires forall s <- nets[|steps|].servers :: behind in nets[|steps|].servers[s].allowed ==> s == path[|path| - 1]
    ensures QuietRun(nets', steps', m, target) && nets <= nets' && SameMesh(nets[|steps|], nets'[|steps'|])
    ensures CutOff(nets'[|steps'|], m, path[|path| - 1], behind)
  {
    var i := |path| - 1;
    var k := Arrives(nets[|steps|], path, i, m, 0);
    NoSender(nets, steps, m, target, path[i]);
    nets', steps' := TakeIt(nets, steps, path, i, m, target, 0);
    assert path[..i + 1] == path;
  }

  /** A message is originated, and nothing else has happened. */
  lemma Starts(net: Net, origin: string, m: string, packet: Packet) returns (nets: seq<Net>, steps: seq<Step>)
    requires Initial(net) && origin in net.servers && packet.fromId != packet.toId
    requires forall s <- net.servers :: net.servers[s].peers <= net.servers.Keys
    ensures QuietRun(nets, steps, m, packet.toId) && nets[0] == net && SameMesh(net, nets[|steps|])
    ensures nets[|steps|] == Originated(net, origin, m, packet) && Sound(nets[|steps|])
  {
    nets, steps := GoOn([net], [], m, packet.toId, Originate(origin, m, packet));
  }

  /** A message sets out along the path. */
  lemma SetsOut(net: Net, path: seq<string>, m: string, packet: Packet) returns (nets: seq<Net>, steps: seq<Step>)
    requires Initial(net) && Route(net.servers, path) && |path| > 1 && packet.fromId != packet.toId
    requires forall s <- net.servers :: net.servers[s].peers <= net.servers.Keys
    ensures QuietRun(nets, steps, m, packet.toId) && nets[0] == net && SameMesh(net, nets[|steps|])
    ensures nets[|steps|].log.origins == map[m := Origin(path[0], packet, net.servers[path[0]].maxHops)]
    ensures OnItsWay(nets[|steps|], path, 1, m, net.servers[path[0]].maxHops)
  {
    assert path[0] in path && path[1] in net.servers[path[0]].peers;
    var nets1, steps1 := Starts(net, path[0], m, packet);
    var mid := nets1[|steps1|];
    var step := FinishTo(mid, path[1]);
    PassedAlong(mid, step.targets, path[1]);
    HandlingKeepsLog(mid, step);
    nets, steps := GoOn(nets1, steps1, m, packet.toId, step);
    SameMeshTransitive(net, mid, nets[|steps|]);
    assert path[..1] == [path[0]];
  }

  /**
   On any mesh with a path of max_hops + 1 links from the origin to the only neighbour of a
   server off the path, however close to the origin that is by other ways, there is a quiet
   run that rests with the message unreported and that server without it.
   */
  lemma LongWayStarves(net: Net, path: seq<string>, behind: string, m: string, packet: Packet, p: nat)
    returns (nets: seq<Net>, steps: seq<Step>)
    requires Initial(net) && Route(net.servers, path) && AtMostPeers(net, p) && packet.fromId != packet.toId
    requires |path| == net.servers[path[0]].maxHops + 2
    requires forall s <- net.servers :: net.servers[s].allowed <= net.servers.Keys
    requires behind in net.servers && behind !in path
    requires forall s <- net.servers :: behind in net.servers[s].allowed ==> s == path[|path| - 1]
    ensures QuietRun(nets, steps, m, packet.toId) && nets[0] == net
    ensures m in nets[|steps|].log.origins && nets[|steps|].log.origins[m] == Origin(path[0], packet, |path| - 2)
    ensures AtRest(nets[|steps|], m) && m !in nets[|steps|].log.reported
    ensures behind in nets[|steps|].servers && m !in nets[|steps|].servers[behind].seen
  {
    var nets1, steps1 := SetsOut(net, path, m, packet);
    RouteStays(net, nets1[|steps1|], path);
    var nets2, steps2 := ToTheEnd(nets1, steps1, path, 1, m, packet.toId);
    RouteStays(nets1[|steps1|], nets2[|steps2|], path);
    SameMeshTransitive(net, nets1[|steps1|], nets2[|steps2|]);
    var nets3, steps3 := Closes(nets2, steps2, path, m, packet.toId, behind);
    nets, steps := Drain(nets3, steps3, m, packet.toId, p);
    CutStays(nets, steps, |steps3|, |steps|, m, packet.toId, path[|path| - 1], behind);
  }

  // ---------------------------------------------------------------- a ring with a server behind it

  /**
   A path of hops + 1 links whose end is also linked to its start, one server behind that
   end, and any others linked to the start.
   */
  predicate Linked(i: nat, j: nat, hops: nat) {
    Onwards(i, j, hops) || Onwards(j, i, hops)
  }

  predicate Onwards(i: nat, j: nat, hops: nat) {
    (j == i + 1 && j <= hops + 2) || (i == 0 && (j == hops + 1 || j >= hops + 3))
  }

  function Beside(s: string, n: nat, hops: nat): (r: set<string>) {
    set v | v in Names(n) && Linked(Position(s), Position(v), hops)
  }

  function Ring(n: nat, hops: nat): (net: Net) {
    Net(map s | s in Names(n) :: Server(hops, Beside(s, n, hops), Beside(s, n, hops), {}, map[]), [], [],
        Log(map[], map[], multiset{}, multiset{}, multiset{}, {}))
  }

  lemma RingShape(n: nat, hops: nat)
    requires 1 <= hops && hops + 2 < n
    ensures Initial(Ring(n, hops)) && Ring(n, hops).servers.Keys == Names(n) && AtMostPeers(Ring(n, hops), n)
    ensures forall s <- Ring(n, hops).servers :: Ring(n, hops).servers[s].allowed <= Ring(n, hops).servers.Keys
  {
    NamesCount(n);
    forall s <- Names(n)
      ensures |Beside(s, n, hops)| <= n
    {
      SubsetSize(Beside(s, n, hops), Names(n));
    }
  }

  /** The long way round. */
  function Round(hops: nat): (path: seq<string>)
    ensures |path| == hops + 2 && forall i | 0 <= i < |path| :: path[i] == Name(i)
  {
    seq(hops + 2, i requires 0 <= i => Name(i))
  }

  lemma RoundIsRoute(n: nat, hops: nat)
    requires 1 <= hops && hops + 2 < n
    ensures Route(Ring(n, hops).servers, Round(hops))
  {
    var servers, path := Ring(n, hops).servers, Round(hops);
    forall i | 0 <= i < |path|
      ensures path[i] in servers
    {
      assert OnLine(Name(i), n);
    }
    forall i | 0 <= i < |path| - 1
      ensures path[i + 1] in servers[path[i]].peers
    {
      assert Linked(i, i + 1, hops);
    }
    forall i, j | 0 <= i < j < |path|
      ensures path[i] != path[j]
    {
      assert |path[i]| == i + 1 && |path[j]| == j + 1;
    }
  }

  lemma OnlyGate(n: nat, hops: nat, s: string)
    requires 1 <= hops && hops + 2 < n && s in Names(n) && Name(hops + 2) in Beside(s, n, hops)
    ensures s == Name(hops + 1)
  {
    assert Linked(Position(s), hops + 2, hops);
  }

  /** The server can be reached over at most that many links. */
  ghost predicate Near(servers: map<string, Server>, from: string, to: string, links: nat) {
    exists path :: Walk(servers, path) && path[0] == from && path[|path| - 1] == to && |path| <= links + 1
  }

  lemma FromWalk(servers: map<string, Server>, path: seq<string>, links: nat)
    requires Walk(servers, path) && |path| <= links + 1
    ensures Near(servers, path[0], path[|path| - 1], links)
  {
  }

  lemma StraightWalk(n: nat, hops: nat, i: nat)
    requires 1 <= hops && hops + 2 < n && i <= hops + 1
    ensures Near(Ring(n, hops).servers, Name(0), Name(i), hops + 1)
  {
    RoundIsRoute(n, hops);
    var servers, path := Ring(n, hops).servers, Round(hops)[..i + 1];
    forall j | 0 <= j < |path| - 1
      ensures path[j] in servers && path[j + 1] in servers[path[j]].peers
    {
      assert path[j] == Round(hops)[j] && path[j + 1] == Round(hops)[j + 1];
    }
    assert Walk(servers, path);
    FromWalk(servers, path, hops + 1);
  }

  lemma ShortWalk(n: nat, hops: nat, i: nat)
    requires 1 <= hops && hops + 2 <= i < n
    ensures Near(Ring(n, hops).servers, Name(0), Name(i), hops + 1)
  {
    var servers := Ring(n, hops).servers;
    assert OnLine(Name(0), n) && OnLine(Name(hops + 1), n) && OnLine(Name(i), n);
    if i == hops + 2 {
      assert Linked(0, hops + 1, hops) && Linked(hops + 1, i, hops);
      FromWalk(servers, [Name(0), Name(hops + 1), Name(i)], hops + 1);
    } else {
      assert Linked(0, i, hops);
      FromWalk(servers, [Name(0), Name(i)], hops + 1);
    }
  }

  lemma AllNear(n: nat, hops: nat, s: string)
    requires 1 <= hops && hops + 2 < n && s in Names(n)
    ensures Near(Ring(n, hops).servers, Name(0), s, hops + 1)
  {
    if |s| <= hops + 2 {
      StraightWalk(n, hops, |s| - 1);
    } else {
      ShortWalk(n, hops, |s| - 1);
    }
  }

  /**
   For every N and every budget from 1 to N - 3 hops there are a mesh of N servers, every
   one of them within max_hops + 1 links of the origin, and a quiet run that rests with the
   message unreported and a server without it.
   */
  lemma DistanceIsNotEnough(n: nat, hops: nat, m: string, packet: Packet) returns (nets: seq<Net>, steps: seq<Step>)
    requires 1 <= hops && hops + 2 < n && packet.fromId != packet.toId
    ensures QuietRun(nets, steps, m, packet.toId) && |nets[0].servers.Keys| == n
    ensures forall s <- nets[0].servers :: Near(nets[0].servers, Name(0), s, hops + 1)
    ensures var net := nets[|steps|];
            && m in net.log.origins && net.log.origins[m] == Origin(Name(0), packet, hops)
            && AtRest(net, m) && m !in net.log.reported
            && Name(hops + 2) in net.servers && m !in net.servers[Name(hops + 2)].seen
  {
    var net, path := Ring(n, hops), Round(hops);
    NamesCount(n);
    RingShape(n, hops);
    RoundIsRoute(n, hops);
    assert OnLine(Name(hops + 2), n) && path[0] in path;
    forall s <- net.servers
      ensures Near(net.servers, Name(0), s, hops + 1)
      ensures Name(hops + 2) in net.servers[s].allowed ==> s == path[|path| - 1]
    {
      AllNear(n, hops, s);
      if Name(hops + 2) in net.servers[s].allowed {
        OnlyGate(n, hops, s);
      }
    }
    nets, steps := LongWayStarves(net, path, Name(hops + 2), m, packet, n);
  }
}
