/**
 The hop budget of FloodCovers cannot be smaller: beyond max_hops + 1 links nobody ever
 sees a message, and a line of N servers with a budget below N - 2 comes to rest with the
 far end untouched.
 */
module FloodTightness {
  import opened Base
  import opened Mesh
  import opened Flood
  import opened FloodTermination
  import opened FloodCoverage

  // ---------------------------------------------------------------- distance

  /** `dist` grows by at most one along every allowed connection. */
  ghost predicate IsDistance(net: Net, dist: string -> nat, origin: string) {
    && dist(origin) == 0
    && forall u <- net.servers, v <- net.servers[u].allowed :: dist(v) <= dist(u) + 1
  }

  lemma {:induction false} TrailDistance(net: Net, dist: string -> nat, trail: seq<string>, j: nat)
    requires trail != [] && IsDistance(net, dist, trail[0]) && TrailAllowed(net.servers, trail) && j < |trail|
    ensures dist(trail[j]) <= j
  {
    if j > 0 {
      TrailDistance(net, dist, trail, j - 1);
      assert trail[j - 1 + 1] in net.servers[trail[j - 1]].allowed;
    }
  }

  lemma UnseenStep(net: Net, step: Step, m: string, far: string)
    requires Enabled(net, step) && far in net.servers && m !in net.servers[far].seen
    requires step.Originate? ==> step.id != m || step.server != far
    requires step.Receive? ==> net.flight[step.k].id != m || net.flight[step.k].dst != far
    ensures m !in Next(net, step).servers[far].seen
  {
  }

  lemma BeyondBudgetStep(first: Net, net: Net, step: Step, m: string, dist: string -> nat, far: string)
    requires Sound(net) && Stable(first, net) && Enabled(net, step)
    requires far in net.servers && (m in net.log.origins ==> m !in net.servers[far].seen)
    requires m in Next(net, step).log.origins
    requires IsDistance(first, dist, Next(net, step).log.origins[m].server)
    requires dist(far) > Next(net, step).log.origins[m].maxHops + 1
    ensures m !in Next(net, step).servers[far].seen
  {
    if m in net.log.origins {
      if step.Receive? && net.flight[step.k].id == m {
        assert net.flight[step.k] in net.flight;
        FarLink(first, net, net.flight[step.k], dist);
      }
    } else {
      NothingYet(net, m);
      OnlyOriginateAdds(net, step, m);
    }
    UnseenStep(net, step, m, far);
  }

  /** In any run at all, a message never reaches a server further than max_hops + 1 links away. */
  lemma {:induction false} BeyondBudget(nets: seq<Net>, steps: seq<Step>, n: nat, m: string, dist: string -> nat,
                                        far: string)
    requires Run(nets, steps) && n <= |steps| && m in nets[n].log.origins
    requires IsDistance(nets[0], dist, nets[n].log.origins[m].server)
    requires far in nets[n].servers && dist(far) > nets[n].log.origins[m].maxHops + 1
    ensures m !in nets[n].servers[far].seen
  {
    assert n > 0;
    RunSound(nets, steps, n - 1);
    assert Stepped(nets, steps, n - 1);
    NextStable(nets[n - 1], steps[n - 1]);
    if m in nets[n - 1].log.origins {
      BeyondBudget(nets, steps, n - 1, m, dist, far);
    }
    BeyondBudgetStep(nets[0], nets[n - 1], steps[n - 1], m, dist, far);
  }

  lemma OnlyOriginateAdds(net: Net, step: Step, m: string)
    requires Enabled(net, step) && m !in net.log.origins && m in Next(net, step).log.origins
    ensures step.Originate? && step.id == m && Next(net, step).log.origins[m].server == step.server
  {
  }

  lemma FarLink(first: Net, net: Net, l: Link, dist: string -> nat)
    requires LinkSound(net, l) && Stable(first, net)
    requires IsDistance(first, dist, net.log.origins[l.id].server)
    ensures dist(l.dst) <= net.log.origins[l.id].maxHops + 1
  {
    assert IsDistance(net, dist, l.trail[0]);
    TrailDistance(net, dist, l.trail, |l.trail| - 1);
  }

  // ---------------------------------------------------------------- running until nothing is left

  lemma {:induction false} Enumerate(all: set<string>) returns (list: seq<string>)
    ensures forall i, j | 0 <= i < j < |list| :: list[i] != list[j]
    ensures forall x :: x in list <==> x in all
  {
    if x :| x in all {
      var rest := Enumerate(all - {x});
      list := [x] + rest;
    } else {
      list := [];
    }
  }

  lemma ExtendRun(nets: seq<Net>, steps: seq<Step>, m: string, target: Text, step: Step)
    requires QuietRun(nets, steps, m, target)
    requires Enabled(nets[|steps|], step) && Quiet(nets[|steps|], step, m, target)
    ensures QuietRun(nets + [Next(nets[|steps|], step)], steps + [step], m, target)
  {
    var nets', steps' := nets + [Next(nets[|steps|], step)], steps + [step];
    forall i | 0 <= i < |steps'|
      ensures Stepped(nets', steps', i) && QuietAt(nets', steps', i, m, target)
    {
      if i < |steps| {
        assert Stepped(nets, steps, i) && QuietAt(nets, steps, i, m, target);
      }
    }
  }

  lemma FinishFirst(net: Net) returns (step: Step)
    requires Sound(net) && net.tasks != []
    ensures step.Finish? && step.k == 0 && !step.delivered && Enabled(net, step)
  {
    var t := net.tasks[0];
    assert TaskSound(net, t);
    var targets := Enumerate(set v | v in net.servers[t.server].peers && Some(v) != t.source);
    step := Finish(0, false, false, targets);
  }

  /** A quiet run goes on with any quiet step that is enabled. */
  lemma GoOn(nets: seq<Net>, steps: seq<Step>, m: string, target: Text, step: Step)
    returns (nets': seq<Net>, steps': seq<Step>)
    requires QuietRun(nets, steps, m, target)
    requires Enabled(nets[|steps|], step) && Quiet(nets[|steps|], step, m, target)
    ensures QuietRun(nets', steps', m, target) && nets <= nets'
    ensures nets'[|steps'|] == Next(nets[|steps|], step) && Sound(nets'[|steps'|])
  {
    ExtendRun(nets, steps, m, target, step);
    nets', steps' := nets + [Next(nets[|steps|], step)], steps + [step];
    RunSound(nets', steps', |steps'|);
  }

  /** Some frame can be handled, locally undelivered, as long as there are any. */
  lemma HandleOne(net: Net) returns (step: Step)
    requires Sound(net) && (net.flight != [] || net.tasks != [])
    requires forall s <- net.servers :: net.servers[s].allowed <= net.servers.Keys
    ensures Enabled(net, step) && Handles(step) && !step.Lose? && (step.Finish? ==> !step.delivered)
  {
    if net.flight != [] {
      assert LinkSound(net, net.flight[0]);
      step := Receive(0);
    } else {
      step := FinishFirst(net);
    }
  }

  lemma HandlingKeepsLog(net: Net, step: Step)
    requires Enabled(net, step) && Handles(step) && (step.Finish? ==> !step.delivered)
    ensures Next(net, step).log.origins == net.log.origins && Next(net, step).log.reported == net.log.reported
  {
  }

  /** A quiet run can always go on, with every local delivery failing, until no frame is left. */
  lemma {:induction false} Drain(nets: seq<Net>, steps: seq<Step>, m: string, target: Text, p: nat)
    returns (nets': seq<Net>, steps': seq<Step>)
    requires QuietRun(nets, steps, m, target) && AtMostPeers(nets[0], p)
    requires forall s <- nets[0].servers :: nets[0].servers[s].allowed <= nets[0].servers.Keys
    ensures QuietRun(nets', steps', m, target) && nets <= nets'
    ensures nets'[|steps'|].flight == [] && nets'[|steps'|].tasks == []
    ensures nets'[|steps'|].log.origins == nets[|steps|].log.origins
    ensures nets'[|steps'|].log.reported == nets[|steps|].log.reported
    decreases Measure(p, nets[|steps|])
  {
    var net := nets[|steps|];
    RunSound(nets, steps, |steps|);
    if net.flight == [] && net.tasks == [] {
      nets', steps' := nets, steps;
    } else {
      var step := HandleOne(net);
      HandlingDecreases(p, net, step);
      HandlingKeepsLog(net, step);
      var nets1, steps1 := GoOn(nets, steps, m, target, step);
      nets', steps' := Drain(nets1, steps1, m, target, p);
    }
  }

  // ---------------------------------------------------------------- the line

  function Name(i: nat): (s: string)
    ensures |s| == i + 1
  {
    seq(i + 1, _ => 'a')
  }

  function Position(s: string): (i: nat) {
    if s == "" then 0 else |s| - 1
  }

  predicate OnLine(s: string, n: nat) {
    1 <= |s| <= n && s == Name(|s| - 1)
  }

  function Names(n: nat): (names: set<string>)
    ensures forall s :: s in names <==> OnLine(s, n)
  {
    set i | 0 <= i < n :: Name(i)
  }

  lemma {:induction false} NamesCount(n: nat)
    ensures |Names(n)| == n
  {
    if n == 0 {
      assert Names(0) == {};
    } else {
      NamesCount(n - 1);
      assert Names(n) == Names(n - 1) + {Name(n - 1)};
    }
  }

  function Neighbours(s: string, n: nat): (r: set<string>) {
    set v | v in Names(n) && (|v| == |s| + 1 || |v| + 1 == |s|)
  }

  function Line(n: nat, hops: nat): (net: Net) {
    Net(map s | s in Names(n) :: Server(hops, Neighbours(s, n), Neighbours(s, n), {}, map[]), [], [],
        Log(map[], map[], multiset{}, multiset{}, multiset{}, {}))
  }

  lemma LineReaches(n: nat, hops: nat, s: string)
    requires s in Names(n)
    ensures Reaches(Line(n, hops).servers, Name(0), s)
  {
    var servers := Line(n, hops).servers;
    var path := seq(|s|, i requires 0 <= i < |s| => Name(i));
    forall i | 0 <= i < |path| - 1
      ensures path[i] in servers && path[i + 1] in servers[path[i]].peers
    {
      assert path[i] == Name(i) && path[i + 1] == Name(i + 1);
    }
    assert Walk(servers, path);
  }

  lemma LinePeers(n: nat, hops: nat)
    ensures AtMostPeers(Line(n, hops), n)
    ensures Initial(Line(n, hops)) && Line(n, hops).servers.Keys == Names(n)
  {
    NamesCount(n);
    forall s <- Names(n)
      ensures |Neighbours(s, n)| <= n
    {
      SubsetSize(Neighbours(s, n), Names(n));
    }
  }

  lemma LineDistance(n: nat, hops: nat)
    ensures IsDistance(Line(n, hops), Position, Name(0))
  {
  }

  lemma LineStart(n: nat, hops: nat, packet: Packet) returns (nets: seq<Net>, steps: seq<Step>)
    requires n > 0 && packet.fromId != packet.toId
    ensures QuietRun(nets, steps, "m", packet.toId) && nets[0] == Line(n, hops)
    ensures nets[|steps|].log.origins == map["m" := Origin(Name(0), packet, hops)]
    ensures nets[|steps|].log.reported == {}
  {
    var line := Line(n, hops);
    LinePeers(n, hops);
    var start := Originate(Name(0), "m", packet);
    assert OnLine(Name(0), n);
    nets, steps := [line], [];
    ExtendRun(nets, steps, "m", packet.toId, start);
    nets, steps := nets + [Next(line, start)], steps + [start];
  }

  /**
   For every N and every budget below N - 2 there are a mesh of N servers, all reachable
   from the origin, and a quiet run that rests with the message unreported and a server
   that never saw it.  With FloodCovers: coverage is guaranteed exactly from N - 2 hops on.
   */
  lemma BudgetIsTight(n: nat, hops: nat, packet: Packet) returns (nets: seq<Net>, steps: seq<Step>)
    requires hops + 2 < n && packet.fromId != packet.toId
    ensures QuietRun(nets, steps, "m", packet.toId)
    ensures |nets[0].servers.Keys| == n
    ensures var net := nets[|steps|];
            && "m" in net.log.origins && net.log.origins["m"] == Origin(Name(0), packet, hops)
            && (forall s <- nets[0].servers :: Reaches(nets[0].servers, Name(0), s))
            && AtRest(net, "m") && "m" !in net.log.reported
            && exists s <- net.servers :: "m" !in net.servers[s].seen
  {
    var line := Line(n, hops);
    LinePeers(n, hops);
    NamesCount(n);
    LineDistance(n, hops);
    nets, steps := LineStart(n, hops, packet);
    nets, steps := Drain(nets, steps, "m", packet.toId, n);
    forall s <- line.servers
      ensures Reaches(line.servers, Name(0), s)
    {
      LineReaches(n, hops, s);
    }
    RunSound(nets, steps, |steps|);
    BeyondBudget(nets, steps, |steps|, "m", Position, Name(n - 1));
    assert Name(n - 1) in nets[|steps|].servers;
  }
}
