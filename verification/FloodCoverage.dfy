/**
 When flooding reaches everyone.  A copy that arrives first over a long path suppresses a
 later copy that has more hops left, so the budget that suffices is not the eccentricity
 of the origin but the number of servers minus two, and no smaller budget does.
 */
module FloodCoverage {
  import opened Base
  import opened Mesh
  import opened Flood
  import opened FloodTermination

  // ---------------------------------------------------------------- quiet runs

  /**
   A step under which connections stay as they are, the id `m` is kept, its frames are not
   lost, and nobody teaches a route to `target`.
   */
  predicate Quiet(net: Net, step: Step, m: string, target: Text) {
    match step
    case Connect(_, _, _) => false
    case Disconnect(_, _) => false
    case Forget(_, id) => id != m
    case Lose(k) => k < |net.flight| && net.flight[k].id != m
    case Originate(_, id, packet) => packet.fromId != target && (id == m ==> packet.toId == target)
    case _ => true
  }

  ghost predicate QuietRun(nets: seq<Net>, steps: seq<Step>, m: string, target: Text) {
    && Run(nets, steps)
    && (forall s <- nets[0].servers :: nets[0].servers[s].peers <= nets[0].servers.Keys)
    && forall i | 0 <= i < |steps| :: QuietAt(nets, steps, i, m, target)
  }

  ghost predicate QuietAt(nets: seq<Net>, steps: seq<Step>, i: nat, m: string, target: Text)
    requires i < |steps| < |nets|
  {
    Quiet(nets[i], steps[i], m, target)
  }

  /** A walk along peer connections. */
  predicate Walk(servers: map<string, Server>, path: seq<string>) {
    && path != []
    && (forall s <- path :: s in servers)
    && forall i | 0 <= i < |path| - 1 :: path[i] in servers && path[i + 1] in servers[path[i]].peers
  }

  ghost predicate Reaches(servers: map<string, Server>, from: string, to: string) {
    exists path :: Walk(servers, path) && path[0] == from && path[|path| - 1] == to
  }

  // ---------------------------------------------------------------- the invariant

  ghost predicate LinkBetween(net: Net, m: string, u: string, v: string) {
    exists k :: 0 <= k < |net.flight| && net.flight[k].id == m && net.flight[k].src == u && net.flight[k].dst == v
  }

  ghost predicate TaskAt(net: Net, m: string, u: string) {
    exists k :: 0 <= k < |net.tasks| && net.tasks[k].id == m && net.tasks[k].server == u
  }

  predicate Accepted(net: Net, m: string, u: string) {
    (u, m) in net.log.accepted
  }

  function TrailTo(net: Net, m: string, u: string): (trail: seq<string>)
    requires Accepted(net, m, u)
  {
    net.log.accepted[(u, m)]
  }

  /** The hop budget was spent when the message got here. */
  predicate Spent(net: Net, m: string, u: string)
    requires Accepted(net, m, u) && m in net.log.origins
  {
    |TrailTo(net, m, u)| > net.log.origins[m].maxHops + 1
  }

  /** The trail of an accepted copy extends the trail of the server it came from. */
  ghost predicate TrailGrows(net: Net, m: string, u: string)
    requires Accepted(net, m, u)
  {
    var trail := TrailTo(net, m, u);
    && trail != [] && trail[|trail| - 1] == u
    && (|trail| > 1 ==>
          var parent := trail[|trail| - 2];
          parent in net.servers && Accepted(net, m, parent) && TrailTo(net, m, parent) == trail[..|trail| - 1])
  }

  ghost predicate Covers(net: Net, m: string, u: string, v: string)
    requires m in net.log.origins && Accepted(net, m, u)
  {
    || Accepted(net, m, v)
    || m in net.log.reported
    || LinkBetween(net, m, u, v)
    || TaskAt(net, m, u)
    || Spent(net, m, u)
  }

  /** Connections stay within the mesh and nobody knows a route to the target. */
  ghost predicate Calm(net: Net, target: Text) {
    && (forall s <- net.servers :: net.servers[s].peers <= net.servers.Keys && target !in net.servers[s].hints)
    && (forall id <- net.log.origins :: net.log.origins[id].packet.fromId != target)
  }

  /** Who holds the message, how it got there, and where its copies and handlers are. */
  ghost predicate Tracked(net: Net, m: string) {
    && (forall s <- net.servers :: m in net.servers[s].seen <==> Accepted(net, m, s))
    && (forall s <- net.servers | Accepted(net, m, s) :: TrailGrows(net, m, s))
    && (forall l <- net.flight :: LinkTracked(net, m, l))
    && (forall t <- net.tasks :: TaskTracked(net, m, t))
  }

  predicate LinkTracked(net: Net, m: string, l: Link) {
    l.id == m ==> l.dst in net.servers && Accepted(net, m, l.src) && TrailTo(net, m, l.src) == l.trail
  }

  predicate TaskTracked(net: Net, m: string, t: Task) {
    t.id == m ==> Accepted(net, m, t.server) && TrailTo(net, m, t.server) == t.trail
  }

  /** Every neighbour of a holder is served, about to be, or out of the budget's reach. */
  ghost predicate Progress(net: Net, m: string, target: Text) {
    m in net.log.origins ==>
      && net.log.origins[m].packet.toId == target
      && forall u <- net.servers | Accepted(net, m, u) ::
           forall v <- net.servers[u].peers :: Covers(net, m, u, v)
  }

  ghost predicate Spreading(net: Net, m: string, target: Text) {
    Calm(net, target) && Tracked(net, m) && Progress(net, m, target)
  }

  lemma WithoutKeeps<T>(s: seq<T>, k: nat, j: nat)
    requires k < |s| && j < |s| && j != k
    ensures s[j] in Without(s, k)
  {
    assert s[j] == Without(s, k)[if j < k then j else j - 1];
  }

  ghost predicate AlikeServers(a: map<string, Server>, b: map<string, Server>, m: string, target: Text) {
    && b.Keys == a.Keys
    && forall s <- a ::
         b[s].peers == a[s].peers && target !in b[s].hints && (m in b[s].seen <==> m in a[s].seen)
  }

  ghost predicate AlikeLogs(a: Log, b: Log, m: string, target: Text) {
    && (forall s: string :: (s, m) in b.accepted <==> (s, m) in a.accepted)
    && (forall s: string | (s, m) in a.accepted :: b.accepted[(s, m)] == a.accepted[(s, m)])
    && (m in b.origins <==> m in a.origins)
    && (m in a.origins ==> b.origins[m] == a.origins[m])
    && (forall id <- b.origins :: b.origins[id].packet.fromId != target)
    && a.reported <= b.reported
  }

  ghost predicate AlikeTraffic(net: Net, net': Net, m: string) {
    && (forall l: Link | l.id == m :: l in net'.flight <==> l in net.flight)
    && (forall t: Task | t.id == m :: t in net'.tasks <==> t in net.tasks)
  }

  /** The two nets are the same as far as `m` is concerned. */
  ghost predicate Alike(net: Net, net': Net, m: string, target: Text) {
    && AlikeServers(net.servers, net'.servers, m, target)
    && AlikeLogs(net.log, net'.log, m, target)
    && AlikeTraffic(net, net', m)
  }

  lemma AlikeCovers(net: Net, net': Net, m: string, target: Text, u: string, v: string)
    requires Alike(net, net', m, target) && m in net.log.origins && Accepted(net, m, u) && Covers(net, m, u, v)
    ensures Covers(net', m, u, v)
  {
    if LinkBetween(net, m, u, v) {
      var k :| 0 <= k < |net.flight| && net.flight[k].id == m && net.flight[k].src == u && net.flight[k].dst == v;
      assert net.flight[k] in net'.flight;
      assert LinkBetween(net', m, u, v);
    }
    if TaskAt(net, m, u) {
      var k :| 0 <= k < |net.tasks| && net.tasks[k].id == m && net.tasks[k].server == u;
      assert net.tasks[k] in net'.tasks;
      assert TaskAt(net', m, u);
    }
  }

  lemma AlikeTracked(net: Net, net': Net, m: string, target: Text)
    requires Alike(net, net', m, target) && Tracked(net, m)
    ensures Tracked(net', m)
  {
    forall s <- net'.servers | Accepted(net', m, s)
      ensures TrailGrows(net', m, s)
    {
      assert TrailGrows(net, m, s);
    }
    forall l <- net'.flight
      ensures LinkTracked(net', m, l)
    {
      if l.id == m {
        assert LinkTracked(net, m, l);
      }
    }
    forall t <- net'.tasks
      ensures TaskTracked(net', m, t)
    {
      if t.id == m {
        assert TaskTracked(net, m, t);
      }
    }
  }

  /** A step that does not touch the copies of `m` keeps the invariant. */
  lemma Untouched(net: Net, net': Net, m: string, target: Text)
    requires Spreading(net, m, target) && Alike(net, net', m, target)
    ensures Spreading(net', m, target)
  {
    AlikeTracked(net, net', m, target);
    if m in net.log.origins {
      forall u <- net'.servers, v <- net'.servers[u].peers | Accepted(net', m, u)
        ensures Covers(net', m, u, v)
      {
        assert Covers(net, m, u, v);
        AlikeCovers(net, net', m, target, u, v);
      }
    }
  }

  lemma WithoutOther<T>(s: seq<T>, k: nat, x: T)
    requires k < |s| && x != s[k]
    ensures x in Without(s, k) <==> x in s
  {
    if x in s {
      var j :| 0 <= j < |s| && s[j] == x;
      WithoutKeeps(s, k, j);
    }
  }

  lemma OriginateOther(net: Net, s: string, id: string, packet: Packet, m: string, target: Text)
    requires Spreading(net, m, target) && s in net.servers && id !in net.log.origins && id != m
    requires packet.fromId != target
    ensures Spreading(Originated(net, s, id, packet), m, target)
  {
    var net' := Originated(net, s, id, packet);
    assert AlikeServers(net.servers, net'.servers, m, target);
    assert AlikeLogs(net.log, net'.log, m, target);
    Untouched(net, net', m, target);
  }

  lemma OriginateItself(net: Net, s: string, m: string, packet: Packet, target: Text)
    requires Sound(net) && Spreading(net, m, target) && s in net.servers && m !in net.log.origins
    requires packet.fromId != target && packet.toId == target
    ensures Spreading(Originated(net, s, m, packet), m, target)
  {
    var net' := Originated(net, s, m, packet);
    OriginateTracked(net, s, m, packet);
    assert net'.tasks[|net.tasks|].id == m && net'.tasks[|net.tasks|].server == s;
    assert TaskAt(net', m, s);
  }

  lemma OriginateTracked(net: Net, s: string, m: string, packet: Packet)
    requires Sound(net) && Tracked(net, m) && s in net.servers && m !in net.log.origins
    ensures Tracked(Originated(net, s, m, packet), m)
    ensures forall r <- net.servers | Accepted(Originated(net, s, m, packet), m, r) :: r == s
  {
    NothingYet(net, m);
  }

  lemma OriginateSpreads(net: Net, step: Step, m: string, target: Text)
    requires Sound(net) && Spreading(net, m, target) && Enabled(net, step) && Quiet(net, step, m, target)
    requires step.Originate?
    ensures Spreading(Next(net, step), m, target)
  {
    if step.id == m {
      OriginateItself(net, step.server, m, step.packet, target);
    } else {
      OriginateOther(net, step.server, step.id, step.packet, m, target);
    }
  }

  /** Before it is originated a message is nowhere. */
  lemma NothingYet(net: Net, m: string)
    requires Sound(net) && m !in net.log.origins
    ensures forall s <- net.servers :: m !in net.servers[s].seen
    ensures forall l <- net.flight :: l.id != m
    ensures forall t <- net.tasks :: t.id != m
  {
    forall s <- net.servers
      ensures m !in net.servers[s].seen
    {
      assert Counted(net, s, m);
    }
    forall l <- net.flight
      ensures l.id != m
    {
      assert LinkSound(net, l);
    }
    forall t <- net.tasks
      ensures t.id != m
    {
      assert TaskSound(net, t);
    }
  }

  lemma ReceivedAlike(net: Net, k: nat, m: string, target: Text)
    requires Sound(net) && Calm(net, target) && k < |net.flight| && net.flight[k].dst in net.servers
    requires net.flight[k].id != m
    ensures AlikeServers(net.servers, Received(net, k).servers, m, target)
    ensures AlikeLogs(net.log, Received(net, k).log, m, target)
  {
    assert LinkSound(net, net.flight[k]);
  }

  lemma ReceivedTraffic(net: Net, k: nat, m: string)
    requires k < |net.flight| && net.flight[k].dst in net.servers && net.flight[k].id != m
    ensures AlikeTraffic(net, Received(net, k), m)
  {
    forall l: Link | l.id == m
      ensures l in Received(net, k).flight <==> l in net.flight
    {
      WithoutOther(net.flight, k, l);
    }
  }

  lemma ReceiveOther(net: Net, k: nat, m: string, target: Text)
    requires Sound(net) && Spreading(net, m, target) && Enabled(net, Receive(k)) && net.flight[k].id != m
    ensures Spreading(Received(net, k), m, target)
  {
    ReceivedAlike(net, k, m, target);
    ReceivedTraffic(net, k, m);
    Untouched(net, Received(net, k), m, target);
  }

  /** New trails are added to the accepted ones and none is changed. */
  lemma StaysTracked(net: Net, net': Net, m: string)
    requires Tracked(net, m) && net'.servers.Keys == net.servers.Keys
    requires forall u: string | Accepted(net, m, u) ::
               Accepted(net', m, u) && TrailTo(net', m, u) == TrailTo(net, m, u)
    ensures forall l <- net.flight :: LinkTracked(net', m, l)
    ensures forall t <- net.tasks :: TaskTracked(net', m, t)
    ensures forall s <- net.servers | Accepted(net, m, s) :: TrailGrows(net', m, s)
  {
    forall l <- net.flight
      ensures LinkTracked(net', m, l)
    {
      assert LinkTracked(net, m, l);
    }
    forall t <- net.tasks
      ensures TaskTracked(net', m, t)
    {
      assert TaskTracked(net, m, t);
    }
    forall s <- net.servers | Accepted(net, m, s)
      ensures TrailGrows(net', m, s)
    {
      assert TrailGrows(net, m, s);
    }
  }

  lemma NewTrail(net: Net, k: nat, m: string)
    requires Sound(net) && Tracked(net, m) && Enabled(net, Receive(k)) && net.flight[k].id == m
    requires m !in net.servers[net.flight[k].dst].seen
    ensures Accepted(Received(net, k), m, net.flight[k].dst) && TrailGrows(Received(net, k), m, net.flight[k].dst)
    ensures TaskTracked(Received(net, k), m, Received(net, k).tasks[|net.tasks|])
  {
    var l := net.flight[k];
    assert LinkSound(net, l) && LinkTracked(net, m, l);
    assert TrailTo(Received(net, k), m, l.dst)[..|l.trail|] == l.trail;
  }

  lemma OldTrails(net: Net, k: nat, m: string)
    requires Tracked(net, m) && Enabled(net, Receive(k)) && net.flight[k].id == m
    ensures forall u: string | Accepted(net, m, u) ::
              Accepted(Received(net, k), m, u) && TrailTo(Received(net, k), m, u) == TrailTo(net, m, u)
    ensures forall s <- net.servers :: m in Received(net, k).servers[s].seen <==> Accepted(Received(net, k), m, s)
    ensures Received(net, k).servers.Keys == net.servers.Keys
  {
  }

  lemma ReceiveTracked(net: Net, k: nat, m: string)
    requires Sound(net) && Tracked(net, m) && Enabled(net, Receive(k)) && net.flight[k].id == m
    ensures Tracked(Received(net, k), m)
  {
    OldTrails(net, k, m);
    StaysTracked(net, Received(net, k), m);
    if m !in net.servers[net.flight[k].dst].seen {
      NewTrail(net, k, m);
    }
  }

  lemma ReceiveSpreads(net: Net, k: nat, m: string, target: Text)
    requires Sound(net) && Spreading(net, m, target) && Enabled(net, Receive(k)) && net.flight[k].id == m
    ensures Spreading(Received(net, k), m, target)
  {
    var net' := Received(net, k);
    var l := net.flight[k];
    assert LinkSound(net, l);
    ReceiveTracked(net, k, m);
    forall u <- net'.servers, v <- net'.servers[u].peers | Accepted(net', m, u)
      ensures Covers(net', m, u, v)
    {
      if u == l.dst && m !in net.servers[l.dst].seen {
        var last := |net.tasks|;
        assert net'.tasks[last].id == m && net'.tasks[last].server == u;
        assert TaskAt(net', m, u);
      } else {
        assert Covers(net, m, u, v);
        CoversAfterReceive(net, k, m, u, v);
      }
    }
  }

  lemma CoversAfterReceive(net: Net, k: nat, m: string, u: string, v: string)
    requires Sound(net) && Enabled(net, Receive(k)) && net.flight[k].id == m && m in net.log.origins
    requires Tracked(net, m)
    requires Accepted(net, m, u) && Covers(net, m, u, v)
    requires u != net.flight[k].dst || m in net.servers[u].seen
    ensures Accepted(Received(net, k), m, u) && Covers(Received(net, k), m, u, v)
  {
    var net' := Received(net, k);
    if LinkBetween(net, m, u, v) {
      var j :| 0 <= j < |net.flight| && net.flight[j].id == m && net.flight[j].src == u && net.flight[j].dst == v;
      if j == k {
        assert Accepted(net', m, v);
      } else {
        WithoutKeeps(net.flight, k, j);
        assert LinkBetween(net', m, u, v);
      }
    }
    if TaskAt(net, m, u) {
      var j :| 0 <= j < |net.tasks| && net.tasks[j].id == m && net.tasks[j].server == u;
      assert net'.tasks[j] == net.tasks[j];
      assert TaskAt(net', m, u);
    }
  }

  lemma FinishOther(net: Net, step: Step, m: string, target: Text)
    requires Sound(net) && Spreading(net, m, target) && Enabled(net, step)
    requires step.Finish? && net.tasks[step.k].id != m
    ensures Spreading(Next(net, step), m, target)
  {
    var net' := Next(net, step);
    forall t: Task | t.id == m
      ensures t in net'.tasks <==> t in net.tasks
    {
      WithoutOther(net.tasks, step.k, t);
    }
    Untouched(net, net', m, target);
  }

  /** With no route to the target known, a message is passed on to every peer but one. */
  lemma PassesToAll(net: Net, step: Step, m: string, target: Text)
    requires Sound(net) && Spreading(net, m, target) && Enabled(net, step)
    requires step.Finish? && net.tasks[step.k].id == m && !Stops(net.tasks[step.k], step.delivered)
    ensures var t := net.tasks[step.k]; Broadcasts(net.servers[t.server].peers, t.source, step.targets)
  {
    assert TaskSound(net, net.tasks[step.k]);
  }

  lemma CopiesTracked(net: Net, m: string, t: Task, targets: seq<string>)
    requires t.out.Some? && TaskTracked(net, m, t) && forall v <- targets :: v in net.servers
    ensures forall l <- Copies(t, targets) :: LinkTracked(net, m, l)
  {
    forall i | 0 <= i < |targets|
      ensures LinkTracked(net, m, Copies(t, targets)[i])
    {
      assert targets[i] in targets;
    }
  }

  lemma FinishTracked(net: Net, step: Step, m: string, target: Text)
    requires Sound(net) && Spreading(net, m, target) && Enabled(net, step)
    requires step.Finish? && net.tasks[step.k].id == m
    ensures Tracked(Next(net, step), m)
  {
    var net' := Next(net, step);
    var t := net.tasks[step.k];
    assert TaskTracked(net, m, t);
    StaysTracked(net, net', m);
    assert forall x <- net'.tasks :: x in net.tasks;
    if !Stops(t, step.delivered) {
      PassesToAll(net, step, m, target);
      assert TaskTracked(net', m, t);
      CopiesTracked(net', m, t, step.targets);
      assert forall l <- net'.flight :: l in net.flight || l in Copies(t, step.targets);
    }
  }

  /** Delivered, out of hops, or passed on: the finished handler leaves none of its peers uncovered. */
  lemma CoversOwnPeers(net: Net, step: Step, m: string, target: Text, v: string)
    requires Sound(net) && Spreading(net, m, target) && Enabled(net, step)
    requires step.Finish? && net.tasks[step.k].id == m
    requires v in net.servers[net.tasks[step.k].server].peers
    ensures var u := net.tasks[step.k].server;
            m in Next(net, step).log.origins && Accepted(Next(net, step), m, u) && Covers(Next(net, step), m, u, v)
  {
    var t := net.tasks[step.k];
    assert TaskSound(net, t) && TaskTracked(net, m, t);
    if !Stops(t, step.delivered) {
      PassedOn(net, step, m, target, v);
    } else if t.out == None {
      assert Spent(net, m, t.server);
    }
  }

  lemma FinishSpreads(net: Net, step: Step, m: string, target: Text)
    requires Sound(net) && Spreading(net, m, target) && Enabled(net, step)
    requires step.Finish? && net.tasks[step.k].id == m
    ensures Spreading(Next(net, step), m, target)
  {
    var net' := Next(net, step);
    var t := net.tasks[step.k];
    assert TaskSound(net, t);
    FinishTracked(net, step, m, target);
    forall u <- net.servers, v <- net.servers[u].peers | Accepted(net, m, u)
      ensures Covers(net', m, u, v)
    {
      assert Covers(net, m, u, v);
      if u == t.server {
        CoversOwnPeers(net, step, m, target, v);
      } else {
        CoversAfterFinish(net, step, m, u, v);
      }
    }
  }

  /** Without a hint the copies go to every peer but the one the message came from. */
  lemma PassedOn(net: Net, step: Step, m: string, target: Text, v: string)
    requires Sound(net) && Spreading(net, m, target) && Enabled(net, step)
    requires step.Finish? && net.tasks[step.k].id == m && !Stops(net.tasks[step.k], step.delivered)
    requires v in net.servers[net.tasks[step.k].server].peers
    ensures Accepted(net, m, v) || LinkBetween(Next(net, step), m, net.tasks[step.k].server, v)
  {
    var t := net.tasks[step.k];
    assert TaskSound(net, t) && TaskTracked(net, m, t);
    if Some(v) == t.source {
      assert TrailGrows(net, m, t.server);
    } else {
      PassesToAll(net, step, m, target);
      CopySent(net, step, m, v);
    }
  }

  lemma CopySent(net: Net, step: Step, m: string, v: string)
    requires Enabled(net, step) && step.Finish? && net.tasks[step.k].id == m
    requires !Stops(net.tasks[step.k], step.delivered)
    requires v in step.targets
    ensures LinkBetween(Next(net, step), m, net.tasks[step.k].server, v)
  {
    var t := net.tasks[step.k];
    var i :| 0 <= i < |step.targets| && step.targets[i] == v;
    assert Next(net, step).flight[|net.flight| + i] == Copies(t, step.targets)[i];
  }

  lemma CoversAfterFinish(net: Net, step: Step, m: string, u: string, v: string)
    requires Enabled(net, step) && step.Finish? && m in net.log.origins
    requires Accepted(net, m, u) && Covers(net, m, u, v) && u != net.tasks[step.k].server
    ensures Covers(Next(net, step), m, u, v)
  {
    var net' := Next(net, step);
    if LinkBetween(net, m, u, v) {
      var j :| 0 <= j < |net.flight| && net.flight[j].id == m && net.flight[j].src == u && net.flight[j].dst == v;
      assert net'.flight[j] == net.flight[j];
      assert LinkBetween(net', m, u, v);
    }
    if TaskAt(net, m, u) {
      var j :| 0 <= j < |net.tasks| && net.tasks[j].id == m && net.tasks[j].server == u;
      WithoutKeeps(net.tasks, step.k, j);
      assert TaskAt(net', m, u);
    }
  }

  lemma LoseOther(net: Net, k: nat, m: string, target: Text)
    requires Sound(net) && Spreading(net, m, target) && k < |net.flight| && net.flight[k].id != m
    ensures Spreading(net.(flight := Without(net.flight, k)), m, target)
  {
    var net' := net.(flight := Without(net.flight, k));
    forall l: Link | l.id == m
      ensures l in net'.flight <==> l in net.flight
    {
      WithoutOther(net.flight, k, l);
    }
    Untouched(net, net', m, target);
  }

  lemma UnaskedSpreads(net: Net, step: Step, m: string, target: Text)
    requires Spreading(net, m, target) && Enabled(net, step) && Quiet(net, step, m, target)
    requires step.Forget? || step.DropHint?
    ensures Spreading(Next(net, step), m, target)
  {
    Untouched(net, Next(net, step), m, target);
  }

  lemma NextSpreads(net: Net, step: Step, m: string, target: Text)
    requires Sound(net) && Spreading(net, m, target) && Enabled(net, step) && Quiet(net, step, m, target)
    ensures Spreading(Next(net, step), m, target)
  {
    match step
    case Originate(_, _, _) => OriginateSpreads(net, step, m, target);
    case Receive(k) =>
      if net.flight[k].id == m {
        ReceiveSpreads(net, k, m, target);
      } else {
        ReceiveOther(net, k, m, target);
      }
    case Finish(k, _, _, _) =>
      if net.tasks[k].id == m {
        FinishSpreads(net, step, m, target);
      } else {
        FinishOther(net, step, m, target);
      }
    case Lose(k) => LoseOther(net, k, m, target);
    case Forget(_, _) => UnaskedSpreads(net, step, m, target);
    case DropHint(_, _) => UnaskedSpreads(net, step, m, target);
    case Connect(_, _, _) =>
    case Disconnect(_, _) =>
  }

  lemma QuietKeepsPeers(net: Net, step: Step, m: string, target: Text)
    requires Enabled(net, step) && Quiet(net, step, m, target)
    ensures SamePeers(net.servers, Next(net, step).servers)
  {
  }

  ghost predicate SamePeers(a: map<string, Server>, b: map<string, Server>) {
    b.Keys == a.Keys && forall s <- a :: b[s].peers == a[s].peers
  }

  lemma SamePeersTransitive(a: map<string, Server>, b: map<string, Server>, c: map<string, Server>)
    requires SamePeers(a, b) && SamePeers(b, c)
    ensures SamePeers(a, c)
  {
  }

  lemma {:induction false} RunSpreads(nets: seq<Net>, steps: seq<Step>, n: nat, m: string, target: Text)
    requires QuietRun(nets, steps, m, target) && n <= |steps|
    ensures Spreading(nets[n], m, target)
    ensures SamePeers(nets[0].servers, nets[n].servers)
  {
    if n > 0 {
      RunSpreads(nets, steps, n - 1, m, target);
      RunSound(nets, steps, n - 1);
      assert Stepped(nets, steps, n - 1) && QuietAt(nets, steps, n - 1, m, target);
      NextSpreads(nets[n - 1], steps[n - 1], m, target);
      QuietKeepsPeers(nets[n - 1], steps[n - 1], m, target);
      SamePeersTransitive(nets[0].servers, nets[n - 1].servers, nets[n].servers);
    }
  }

  // ---------------------------------------------------------------- coverage

  /** Every prefix of a trail is the trail of its last server. */
  lemma {:induction false} TrailPrefixes(net: Net, m: string, target: Text, u: string, j: nat)
    requires Spreading(net, m, target) && u in net.servers && Accepted(net, m, u) && j < |TrailTo(net, m, u)|
    ensures var w := TrailTo(net, m, u)[j];
            w in net.servers && Accepted(net, m, w) && TrailTo(net, m, w) == TrailTo(net, m, u)[..j + 1]
    decreases |TrailTo(net, m, u)|
  {
    var trail := TrailTo(net, m, u);
    assert TrailGrows(net, m, u);
    if j == |trail| - 1 {
      assert trail[..j + 1] == trail;
    } else {
      TrailPrefixes(net, m, target, trail[|trail| - 2], j);
    }
  }

  /** The servers of a trail are distinct, so a trail is no longer than the mesh is large. */
  lemma TrailFits(net: Net, m: string, target: Text, u: string)
    requires Spreading(net, m, target) && u in net.servers && Accepted(net, m, u)
    ensures |TrailTo(net, m, u)| <= |set s | s in net.servers && Accepted(net, m, s)|
  {
    var trail := TrailTo(net, m, u);
    var reached := set s | s in net.servers && Accepted(net, m, s);
    forall i, j | 0 <= i < j < |trail|
      ensures trail[i] != trail[j]
    {
      TrailPrefixes(net, m, target, u, i);
      TrailPrefixes(net, m, target, u, j);
      assert |trail[..i + 1]| != |trail[..j + 1]|;
    }
    forall s <- trail
      ensures s in reached
    {
      var j :| 0 <= j < |trail| && trail[j] == s;
      TrailPrefixes(net, m, target, u, j);
    }
    DistinctWithin(trail, reached);
  }

  /** A walk that leaves a set crosses its border. */
  lemma {:induction false} Border(servers: map<string, Server>, path: seq<string>, inside: set<string>)
    returns (u: string, v: string)
    requires Walk(servers, path) && path[0] in inside && path[|path| - 1] !in inside
    ensures u in inside && u in servers && v in servers[u].peers && v in servers && v !in inside
  {
    if path[1] in inside {
      forall i | 0 <= i < |path[1..]| - 1
        ensures path[1..][i] in servers && path[1..][i + 1] in servers[path[1..][i]].peers
      {
        assert path[1..][i] == path[i + 1];
      }
      u, v := Border(servers, path[1..], inside);
    } else {
      u, v := path[0], path[1];
    }
  }

  ghost predicate AtRest(net: Net, m: string) {
    && (forall l <- net.flight :: l.id != m)
    && (forall t <- net.tasks :: t.id != m)
  }

  /** At rest only a holder whose budget was spent has a neighbour without the message. */
  lemma BorderSpent(net: Net, m: string, target: Text, u: string, v: string)
    requires Spreading(net, m, target) && AtRest(net, m) && m in net.log.origins && m !in net.log.reported
    requires u in net.servers && v in net.servers[u].peers && Accepted(net, m, u) && !Accepted(net, m, v)
    ensures Spent(net, m, u)
  {
    assert Covers(net, m, u, v);
  }

  /** An unreported message at rest has reached every server its budget allows. */
  lemma RestCovers(net: Net, m: string, target: Text)
    requires Sound(net) && Spreading(net, m, target) && AtRest(net, m)
    requires m in net.log.origins && m !in net.log.reported
    requires net.log.origins[m].server in net.servers && Accepted(net, m, net.log.origins[m].server)
    requires forall s <- net.servers :: Reaches(net.servers, net.log.origins[m].server, s)
    requires net.log.origins[m].maxHops + 2 >= |net.servers.Keys|
    ensures forall s <- net.servers :: Accepted(net, m, s)
  {
    var reached := set s | s in net.servers && Accepted(net, m, s);
    if missing :| missing in net.servers && !Accepted(net, m, missing) {
      var path :| Walk(net.servers, path) && path[0] == net.log.origins[m].server && path[|path| - 1] == missing;
      var u, v := Border(net.servers, path, reached);
      BorderSpent(net, m, target, u, v);
      TrailFits(net, m, target, u);
      SubsetOfSameSize(reached, net.servers.Keys);
      assert false;
    }
  }

  /** The origin has accepted its own message for as long as it is kept. */
  lemma {:induction false} OriginAccepted(nets: seq<Net>, steps: seq<Step>, n: nat, m: string)
    requires Run(nets, steps) && n <= |steps| && m in nets[n].log.origins
    ensures Accepted(nets[n], m, nets[n].log.origins[m].server)
    ensures nets[n].log.origins[m].server in nets[n].servers
  {
    assert n > 0;
    assert Stepped(nets, steps, n - 1);
    if m in nets[n - 1].log.origins {
      OriginAccepted(nets, steps, n - 1, m);
      AcceptedStays(nets[n - 1], steps[n - 1], m);
    } else {
      FreshlyAccepted(nets[n - 1], steps[n - 1], m);
    }
  }

  lemma AcceptedStays(net: Net, step: Step, m: string)
    requires Enabled(net, step) && m in net.log.origins
    requires Accepted(net, m, net.log.origins[m].server) && net.log.origins[m].server in net.servers
    ensures m in Next(net, step).log.origins && Next(net, step).log.origins[m] == net.log.origins[m]
    ensures Accepted(Next(net, step), m, net.log.origins[m].server)
    ensures net.log.origins[m].server in Next(net, step).servers
  {
  }

  lemma FreshlyAccepted(net: Net, step: Step, m: string)
    requires Enabled(net, step) && m !in net.log.origins && m in Next(net, step).log.origins
    ensures Accepted(Next(net, step), m, Next(net, step).log.origins[m].server)
    ensures Next(net, step).log.origins[m].server in Next(net, step).servers
  {
  }

  /**
   Flood coverage: on a static mesh whose every server can be reached from the origin,
   with reliable links, the id kept everywhere and no route to the target known, a budget
   of at least N - 2 hops makes a message that comes to rest either be reported delivered
   somewhere or be processed by every server, in every interleaving.
   */
  lemma FloodCovers(nets: seq<Net>, steps: seq<Step>, n: nat, m: string, target: Text)
    requires QuietRun(nets, steps, m, target) && n <= |steps|
    requires m in nets[n].log.origins && AtRest(nets[n], m)
    requires forall s <- nets[0].servers :: Reaches(nets[0].servers, nets[n].log.origins[m].server, s)
    requires nets[n].log.origins[m].maxHops + 2 >= |nets[0].servers.Keys|
    ensures m in nets[n].log.reported
         || forall s <- nets[n].servers ::
              && m in nets[n].servers[s].seen
              && (s != nets[n].log.origins[m].server ==>
                    Offer(s, m, nets[n].log.origins[m].packet) in nets[n].log.offered)
  {
    var net := nets[n];
    RunSpreads(nets, steps, n, m, target);
    RunSound(nets, steps, n);
    OriginAccepted(nets, steps, n, m);
    if m !in net.log.reported {
      forall s <- net.servers
        ensures Reaches(net.servers, net.log.origins[m].server, s)
      {
        var path :| Walk(nets[0].servers, path) && path[0] == net.log.origins[m].server && path[|path| - 1] == s;
        assert Walk(net.servers, path);
      }
      RestCovers(net, m, target);
      forall s <- net.servers
        ensures m in net.servers[s].seen
        ensures s != net.log.origins[m].server ==> Offer(s, m, net.log.origins[m].packet) in net.log.offered
      {
        assert Accepted(net, m, s);
        assert Counted(net, s, m);
      }
    }
  }
}
