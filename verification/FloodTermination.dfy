/**
 Flooding ends, whatever the duplicate suppression and the route hints do: the hop budget
 alone bounds the traffic of a message.
 */
module FloodTermination {
  import opened Base
  import opened Mesh
  import opened Flood

  // ---------------------------------------------------------------- sums

  function Sum<T>(s: seq<T>, w: T -> nat): (total: nat) {
    if s == [] then 0 else w(s[0]) + Sum(s[1..], w)
  }

  lemma {:induction false} SumAppend<T>(a: seq<T>, b: seq<T>, w: T -> nat)
    ensures Sum(a + b, w) == Sum(a, w) + Sum(b, w)
  {
    if a == [] {
      assert a + b == b;
    } else {
      SumAppend(a[1..], b, w);
      assert (a + b)[1..] == a[1..] + b;
    }
  }

  lemma {:induction false} SumWithout<T>(s: seq<T>, k: nat, w: T -> nat)
    requires k < |s|
    ensures Sum(s, w) == Sum(Without(s, k), w) + w(s[k])
  {
    if k == 0 {
      assert Without(s, 0) == s[1..];
    } else {
      SumWithout(s[1..], k - 1, w);
      assert Without(s, k)[0] == s[0] && Without(s, k)[1..] == Without(s[1..], k - 1);
    }
  }

  lemma {:induction false} SumConstant<T>(s: seq<T>, w: T -> nat, c: nat)
    requires forall x <- s :: w(x) == c
    ensures Sum(s, w) == |s| * c
  {
    if s != [] {
      SumConstant(s[1..], w, c);
      calc {
        Sum(s, w);
        w(s[0]) + Sum(s[1..], w);
        c + (|s| - 1) * c;
        |s| * c;
      }
    }
  }

  lemma {:induction false} SumZero<T>(s: seq<T>, w: T -> nat)
    requires forall x <- s :: w(x) == 0
    ensures Sum(s, w) == 0
  {
    if s != [] {
      SumZero(s[1..], w);
    }
  }

  // ---------------------------------------------------------------- the cost of a frame

  /** The transmissions a frame can account for, itself included, with `p` peers everywhere. */
  function Cost(p: nat, hops: nat): (c: nat)
    ensures c >= 1
  {
    if hops == 0 then 1 else 1 + p * Cost(p, hops - 1)
  }

  function Onward(p: nat, out: Option<nat>): (c: nat) {
    match out
    case None => 0
    case Some(h) => p * Cost(p, h)
  }

  function Power(p: nat, n: nat): (r: nat) {
    if n == 0 then 1 else p * Power(p, n - 1)
  }

  /** p + p^2 + ... + p^n */
  function PowerSum(p: nat, n: nat): (r: nat) {
    if n == 0 then 0 else PowerSum(p, n - 1) + Power(p, n)
  }

  lemma {:induction false} PowerSumShift(p: nat, n: nat)
    ensures PowerSum(p, n + 1) == p * (1 + PowerSum(p, n))
  {
    if n > 0 {
      PowerSumShift(p, n - 1);
      calc {
        PowerSum(p, n + 1);
        PowerSum(p, n) + Power(p, n + 1);
        p * (1 + PowerSum(p, n - 1)) + p * Power(p, n);
        p * (1 + PowerSum(p, n - 1) + Power(p, n));
        p * (1 + PowerSum(p, n));
      }
    } else {
      assert Power(p, 1) == p * Power(p, 0);
    }
  }

  lemma {:induction false} CostIsPowerSum(p: nat, hops: nat)
    ensures Cost(p, hops) == 1 + PowerSum(p, hops)
  {
    if hops > 0 {
      CostIsPowerSum(p, hops - 1);
      PowerSumShift(p, hops - 1);
    }
  }

  // ---------------------------------------------------------------- fan-out

  ghost predicate AtMostPeers(net: Net, p: nat) {
    forall s <- net.servers :: |net.servers[s].allowed| <= p
  }

  lemma {:induction false} DistinctWithin(targets: seq<string>, within: set<string>)
    requires forall i, j | 0 <= i < j < |targets| :: targets[i] != targets[j]
    requires forall t <- targets :: t in within
    ensures |targets| <= |within|
  {
    if targets != [] {
      var last := targets[|targets| - 1];
      var front := targets[..|targets| - 1];
      forall t <- front
        ensures t in within - {last}
      {
        var i :| 0 <= i < |front| && front[i] == t;
        assert targets[i] != last;
      }
      DistinctWithin(front, within - {last});
    }
  }

  /** The peer table stays within the allowlist, so a message fans out to at most `p` peers. */
  lemma FanOut(net: Net, step: Step, p: nat)
    requires Sound(net) && Enabled(net, step) && AtMostPeers(net, p)
    requires step.Finish? && !Stops(net.tasks[step.k], step.delivered)
    ensures |step.targets| <= p
  {
    var t := net.tasks[step.k];
    var server := net.servers[t.server];
    if Broadcasts(server.peers, t.source, step.targets) {
      DistinctWithin(step.targets, server.allowed);
    } else {
      DistinctWithin(step.targets, server.allowed);
    }
  }

  // ---------------------------------------------------------------- the measure

  function LinkWeight(p: nat): (w: Link -> nat) {
    (l: Link) => 2 * Cost(p, l.hops)
  }

  function TaskWeight(p: nat): (w: Task -> nat) {
    (t: Task) => 2 * Onward(p, t.out) + 1
  }

  function Measure(p: nat, net: Net): (m: nat) {
    Sum(net.flight, LinkWeight(p)) + Sum(net.tasks, TaskWeight(p))
  }

  lemma TimesMonotone(a: nat, b: nat, c: nat)
    requires a <= b
    ensures a * c <= b * c
  {
  }

  lemma ReceiveDecreases(p: nat, net: Net, k: nat)
    requires Enabled(net, Receive(k))
    ensures Measure(p, Received(net, k)) < Measure(p, net)
  {
    var l := net.flight[k];
    SumWithout(net.flight, k, LinkWeight(p));
    if l.id !in net.servers[l.dst].seen {
      var t := Received(net, k).tasks[|net.tasks|];
      SumAppend(net.tasks, [t], TaskWeight(p));
      LighterTask(p, l, t);
    }
  }

  /** A handler weighs less than the frame that it took. */
  lemma LighterTask(p: nat, l: Link, t: Task)
    requires t.out == if l.hops == 0 then None else Some(l.hops - 1)
    ensures Sum([t], TaskWeight(p)) == TaskWeight(p)(t) < LinkWeight(p)(l)
  {
    assert Sum([t][1..], TaskWeight(p)) == 0;
  }

  lemma CopiesWeigh(p: nat, t: Task, targets: seq<string>)
    requires t.out.Some? && |targets| <= p
    ensures Sum(Copies(t, targets), LinkWeight(p)) <= 2 * Onward(p, t.out)
  {
    var c := Cost(p, t.out.value);
    SumConstant(Copies(t, targets), LinkWeight(p), 2 * c);
    TimesMonotone(|targets|, p, 2 * c);
    TimesSwap(p, 2, c);
  }

  lemma TimesSwap(a: nat, b: nat, c: nat)
    ensures a * (b * c) == b * (a * c)
  {
  }

  lemma FinishDecreases(p: nat, net: Net, step: Step)
    requires Sound(net) && Enabled(net, step) && step.Finish? && AtMostPeers(net, p)
    ensures Measure(p, Next(net, step)) < Measure(p, net)
  {
    var t := net.tasks[step.k];
    SumWithout(net.tasks, step.k, TaskWeight(p));
    if !Stops(t, step.delivered) {
      FanOut(net, step, p);
      var copies := Copies(t, step.targets);
      SumAppend(net.flight, copies, LinkWeight(p));
      CopiesWeigh(p, t, step.targets);
    }
  }

  predicate Handles(step: Step) {
    step.Receive? || step.Finish? || step.Lose?
  }

  /** Every step that handles a frame makes the measure smaller; no step but a new packet makes it larger. */
  lemma HandlingDecreases(p: nat, net: Net, step: Step)
    requires Sound(net) && Enabled(net, step) && AtMostPeers(net, p)
    ensures Handles(step) ==> Measure(p, Next(net, step)) < Measure(p, net)
    ensures !Handles(step) && !step.Originate? ==> Measure(p, Next(net, step)) == Measure(p, net)
    ensures step.Originate? ==>
              Measure(p, Next(net, step)) == Measure(p, net) + 2 * Onward(p, Some(net.servers[step.server].maxHops)) + 1
  {
    match step
    case Receive(k) => ReceiveDecreases(p, net, k);
    case Finish(_, _, _, _) => FinishDecreases(p, net, step);
    case Lose(k) => SumWithout(net.flight, k, LinkWeight(p));
    case Originate(s, id, packet) => OriginateAdds(p, net, s, id, packet);
    case _ =>
  }

  lemma OriginateAdds(p: nat, net: Net, s: string, id: string, packet: Packet)
    requires s in net.servers
    ensures Measure(p, Originated(net, s, id, packet))
         == Measure(p, net) + 2 * Onward(p, Some(net.servers[s].maxHops)) + 1
  {
    SumAppend(net.tasks, [Originated(net, s, id, packet).tasks[|net.tasks|]], TaskWeight(p));
  }

  function CountHandled(steps: seq<Step>): (n: nat) {
    if steps == [] then 0
    else CountHandled(steps[..|steps| - 1]) + (if Handles(steps[|steps| - 1]) then 1 else 0)
  }

  function CountOriginated(steps: seq<Step>): (n: nat) {
    if steps == [] then 0
    else CountOriginated(steps[..|steps| - 1]) + (if steps[|steps| - 1].Originate? then 1 else 0)
  }

  lemma {:induction false} CostMonotone(p: nat, a: nat, b: nat)
    requires a <= b
    ensures Cost(p, a) <= Cost(p, b)
  {
    if a > 0 {
      CostMonotone(p, a - 1, b - 1);
      TimesMonotone(Cost(p, a - 1), Cost(p, b - 1), p);
    }
  }

  lemma OriginationAllowance(p: nat, hops: nat, maxHops: nat)
    requires hops <= maxHops
    ensures Onward(p, Some(hops)) <= PowerSum(p, maxHops + 1)
  {
    CostMonotone(p, hops, maxHops);
    TimesMonotone(Cost(p, hops), Cost(p, maxHops), p);
    FullCost(p, maxHops);
  }

  lemma FullCost(p: nat, hops: nat)
    ensures p * Cost(p, hops) == PowerSum(p, hops + 1)
  {
    CostIsPowerSum(p, hops);
    PowerSumShift(p, hops);
  }

  /** `each` for every packet handed to the mesh. */
  function Granted(steps: seq<Step>, each: nat): (n: nat) {
    if steps == [] then 0
    else Granted(steps[..|steps| - 1], each) + (if steps[|steps| - 1].Originate? then each else 0)
  }

  lemma {:induction false} GrantedIsProduct(steps: seq<Step>, each: nat)
    ensures Granted(steps, each) == CountOriginated(steps) * each
  {
    if steps != [] {
      GrantedIsProduct(steps[..|steps| - 1], each);
      TimesSucc(each, CountOriginated(steps[..|steps| - 1]));
    }
  }

  lemma {:induction false} HandlingWithinGrants(nets: seq<Net>, steps: seq<Step>, n: nat, p: nat, maxHops: nat)
    requires Run(nets, steps) && n <= |steps|
    requires AtMostPeers(nets[0], p)
    requires forall s <- nets[0].servers :: nets[0].servers[s].maxHops <= maxHops
    ensures CountHandled(steps[..n]) + Measure(p, nets[n]) <= Granted(steps[..n], 2 * PowerSum(p, maxHops + 1) + 1)
  {
    if n > 0 {
      HandlingWithinGrants(nets, steps, n - 1, p, maxHops);
      RunSound(nets, steps, n - 1);
      assert Stepped(nets, steps, n - 1);
      assert steps[..n][..n - 1] == steps[..n - 1];
      StepWithinGrant(p, nets[n - 1], steps[n - 1], maxHops);
    }
  }

  /** What one step may add to the measure and the count. */
  lemma StepWithinGrant(p: nat, net: Net, step: Step, maxHops: nat)
    requires Sound(net) && Enabled(net, step) && AtMostPeers(net, p)
    requires forall s <- net.servers :: net.servers[s].maxHops <= maxHops
    ensures (if Handles(step) then 1 else 0) + Measure(p, Next(net, step)) <=
              Measure(p, net) + (if step.Originate? then 2 * PowerSum(p, maxHops + 1) + 1 else 0)
  {
    HandlingDecreases(p, net, step);
    if step.Originate? {
      OriginationAllowance(p, net.servers[step.server].maxHops, maxHops);
    }
  }

  /**
   Flooding terminates: in any run the steps that handle frames number at most a constant
   for each packet handed to the mesh, so without new packets the frames run out.
   */
  lemma HandlingBounded(nets: seq<Net>, steps: seq<Step>, p: nat, maxHops: nat)
    requires Run(nets, steps) && AtMostPeers(nets[0], p)
    requires forall s <- nets[0].servers :: nets[0].servers[s].maxHops <= maxHops
    ensures CountHandled(steps) <= CountOriginated(steps) * (2 * PowerSum(p, maxHops + 1) + 1)
  {
    HandlingWithinGrants(nets, steps, |steps|, p, maxHops);
    assert steps[..|steps|] == steps;
    GrantedIsProduct(steps, 2 * PowerSum(p, maxHops + 1) + 1);
  }

  // ---------------------------------------------------------------- transmissions of one message

  function LinkBudget(p: nat, id: string): (w: Link -> nat) {
    (l: Link) => if l.id == id then Cost(p, l.hops) - 1 else 0
  }

  function TaskBudget(p: nat, id: string): (w: Task -> nat) {
    (t: Task) => if t.id == id then Onward(p, t.out) else 0
  }

  function Pending(p: nat, id: string, net: Net): (n: nat) {
    Sum(net.flight, LinkBudget(p, id)) + Sum(net.tasks, TaskBudget(p, id))
  }

  /** What was sent and what can still be sent stay within the origin's allowance. */
  ghost predicate WithinAllowance(p: nat, id: string, net: Net) {
    if id in net.log.origins
    then net.log.sent[id] + Pending(p, id, net) <= p * Cost(p, net.log.origins[id].maxHops)
    else net.log.sent[id] == 0
  }

  lemma ReceiveWithin(p: nat, id: string, net: Net, k: nat)
    requires Sound(net) && Enabled(net, Receive(k)) && WithinAllowance(p, id, net)
    ensures WithinAllowance(p, id, Received(net, k))
  {
    var l := net.flight[k];
    SumWithout(net.flight, k, LinkBudget(p, id));
    if l.id !in net.servers[l.dst].seen {
      var net' := Received(net, k);
      SumAppend(net.tasks, [net'.tasks[|net.tasks|]], TaskBudget(p, id));
    }
  }

  lemma CopiesBudget(p: nat, id: string, t: Task, targets: seq<string>)
    requires t.out.Some? && |targets| <= p
    ensures t.id == id ==> |targets| + Sum(Copies(t, targets), LinkBudget(p, id)) <= Onward(p, t.out)
    ensures t.id != id ==> Sum(Copies(t, targets), LinkBudget(p, id)) == 0
  {
    var c := Cost(p, t.out.value);
    if t.id == id {
      SumConstant(Copies(t, targets), LinkBudget(p, id), c - 1);
      TimesMonotone(|targets|, p, c);
      TimesSucc(|targets|, c - 1);
    } else {
      SumZero(Copies(t, targets), LinkBudget(p, id));
    }
  }

  lemma TimesSucc(a: nat, b: nat)
    ensures a + a * b == a * (b + 1)
  {
  }

  lemma FinishWithin(p: nat, id: string, net: Net, step: Step)
    requires Sound(net) && Enabled(net, step) && step.Finish? && AtMostPeers(net, p)
    requires WithinAllowance(p, id, net)
    ensures WithinAllowance(p, id, Next(net, step))
  {
    var t := net.tasks[step.k];
    assert TaskSound(net, t);
    SumWithout(net.tasks, step.k, TaskBudget(p, id));
    if !Stops(t, step.delivered) {
      FanOut(net, step, p);
      var copies := Copies(t, step.targets);
      SumAppend(net.flight, copies, LinkBudget(p, id));
      CopiesBudget(p, id, t, step.targets);
    }
  }

  lemma OriginateWithin(p: nat, id: string, net: Net, step: Step)
    requires Sound(net) && Enabled(net, step) && step.Originate? && WithinAllowance(p, id, net)
    ensures WithinAllowance(p, id, Next(net, step))
  {
    var net' := Next(net, step);
    SumAppend(net.tasks, [net'.tasks[|net.tasks|]], TaskBudget(p, id));
    if step.id == id {
      forall l <- net.flight
        ensures LinkBudget(p, id)(l) == 0
      {
        assert LinkSound(net, l);
      }
      forall t <- net.tasks
        ensures TaskBudget(p, id)(t) == 0
      {
        assert TaskSound(net, t);
      }
      SumZero(net.flight, LinkBudget(p, id));
      SumZero(net.tasks, TaskBudget(p, id));
    }
  }

  lemma NextWithin(p: nat, id: string, net: Net, step: Step)
    requires Sound(net) && Enabled(net, step) && AtMostPeers(net, p) && WithinAllowance(p, id, net)
    ensures WithinAllowance(p, id, Next(net, step))
  {
    match step
    case Receive(k) => ReceiveWithin(p, id, net, k);
    case Finish(_, _, _, _) => FinishWithin(p, id, net, step);
    case Originate(_, _, _) => OriginateWithin(p, id, net, step);
    case Lose(k) => SumWithout(net.flight, k, LinkBudget(p, id));
    case _ =>
  }

  lemma {:induction false} RunWithin(nets: seq<Net>, steps: seq<Step>, n: nat, p: nat, id: string)
    requires Run(nets, steps) && n <= |steps| && AtMostPeers(nets[0], p)
    ensures WithinAllowance(p, id, nets[n])
  {
    if n > 0 {
      RunWithin(nets, steps, n - 1, p, id);
      RunSound(nets, steps, n - 1);
      assert Stepped(nets, steps, n - 1);
      NextWithin(p, id, nets[n - 1], steps[n - 1]);
    }
  }

  /**
   One local packet causes at most P + P^2 + ... + P^(max_hops + 1) transmissions when no
   server allows more than P peers.
   */
  lemma TransmissionsBounded(nets: seq<Net>, steps: seq<Step>, n: nat, p: nat, id: string)
    requires Run(nets, steps) && n <= |steps| && AtMostPeers(nets[0], p)
    requires id in nets[n].log.origins
    ensures nets[n].log.sent[id] <= PowerSum(p, nets[n].log.origins[id].maxHops + 1)
  {
    RunWithin(nets, steps, n, p, id);
    FullCost(p, nets[n].log.origins[id].maxHops);
  }
}
