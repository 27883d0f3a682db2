/**
 The stream relay's registry of live connections and the life cycle of a connection
 (`handle_connection`, `deliver_local`), for all interleavings of all connections.

 Connection ids come from a counter that is taken not to wrap around.  Whether a target's
 writer still takes frames is an input.
 */
module StreamRegistry {
  import opened Base
  import opened RelayCodec

  type Peers = map<Text, seq<nat>>

  // ---------------------------------------------------------------- the registry

  function Added(peers: Peers, node: Text, conn: nat): (r: Peers) {
    peers[node := (if node in peers then peers[node] else []) + [conn]]
  }

  function Retained(list: seq<nat>, conn: nat): (r: seq<nat>) {
    if list == [] then []
    else if list[0] != conn then [list[0]] + Retained(list[1..], conn)
    else Retained(list[1..], conn)
  }

  function Removed(peers: Peers, node: Text, conn: nat): (r: Peers) {
    if node !in peers then peers
    else if Retained(peers[node], conn) == [] then peers - {node}
    else peers[node := Retained(peers[node], conn)]
  }

  /** What `deliver_local` answers: an error only if the Deliver packet cannot be built. */
  function Delivered(peers: Peers, fromId: Text, toId: Text, open: set<nat>): (r: Result<bool, BuildError>) {
    if toId !in peers then Ok(false)
    else if !Buildable(fromId, []) then Err(IdTooLong)
    else Ok(exists i :: 0 <= i < |peers[toId]| && peers[toId][i] in open)
  }

  /** The connections of the list that still take packets, in order. */
  function OpenOf(list: seq<nat>, open: set<nat>): (r: seq<nat>) {
    if list == [] then [] else
    OpenOf(list[..|list| - 1], open) + (if list[|list| - 1] in open then [list[|list| - 1]] else [])
  }

  lemma {:induction false} RetainedPrefix(list: seq<nat>, i: nat, conn: nat)
    requires i < |list|
    ensures Retained(list[..i + 1], conn) == Retained(list[..i], conn) + (if list[i] == conn then [] else [list[i]])
  {
    if i == 0 {
      assert list[..1] == [list[0]];
    } else {
      RetainedPrefix(list[1..], i - 1, conn);
      assert list[..i + 1][1..] == list[1..][..i];
      assert list[..i][1..] == list[1..][..i - 1];
    }
  }

  function Handed(conns: seq<nat>, packet: seq<byte>): (sent: seq<(nat, seq<byte>)>) {
    seq(|conns|, i requires 0 <= i < |conns| => (conns[i], packet))
  }

  class Registry {
    var peers: Peers

    constructor ()
      ensures peers == map[]
    {
      peers := map[];
    }

    method Register(node: Text, conn: nat)
      modifies this
      ensures peers == Added(old(peers), node, conn)
    {
      if node !in peers {
        peers := peers[node := []];
      }
      peers := peers[node := peers[node] + [conn]];
    }

    method Unregister(node: Text, conn: nat)
      modifies this
      ensures peers == Removed(old(peers), node, conn)
    {
      if node in peers {
        var list, kept := peers[node], [];
        for i := 0 to |list|
          invariant peers == old(peers)
          invariant kept == Retained(list[..i], conn)
        {
          RetainedPrefix(list, i, conn);
          if list[i] != conn {
            kept := kept + [list[i]];
          }
        }
        assert list[..|list|] == list;
        peers := peers[node := kept];
        if kept == [] {
          peers := peers - {node};
          assert peers == old(peers) - {node};
        }
      }
    }

    /** Hands the same Deliver packet to every connection of the target that still takes it. */
    method DeliverLocal(fromId: Text, toId: Text, payload: seq<byte>, open: set<nat>)
      returns (r: Result<bool, BuildError>, sent: seq<(nat, seq<byte>)>)
      ensures r == Delivered(peers, fromId, toId, open)
      ensures r == Ok(true) <==> sent != []
      ensures sent == if toId in peers && Buildable(fromId, [])
                      then Handed(OpenOf(peers[toId], open), Layout(STREAM_MAGIC, TYPE_DELIVER, fromId, [], payload))
                      else []
    {
      sent := [];
      if toId !in peers {
        return Ok(false), [];
      }
      var deliver := BuildPacket(STREAM_MAGIC, TYPE_DELIVER, fromId, [], payload);
      if deliver.Err? {
        return Err(IdTooLong), [];
      }
      var targets := peers[toId];
      for i := 0 to |targets|
        invariant sent != [] <==> exists j :: 0 <= j < i && targets[j] in open
        invariant sent == Handed(OpenOf(targets[..i], open), deliver.value)
      {
        assert targets[..i + 1][..i] == targets[..i];
        if targets[i] in open {
          sent := sent + [(targets[i], deliver.value)];
        }
      }
      assert targets[..|targets|] == targets;
      r := Ok(sent != []);
    }
  }

  // ---------------------------------------------------------------- connections

  /** `Failed` is a handler that left through an error after it had registered. */
  datatype Phase = Opened | Live(node: Text) | Closed | Failed

  datatype Forward = Forward(conn: nat, fromId: Text, toId: Text, payload: seq<byte>)

  datatype Relay = Relay(
    peers: Peers, conns: map<nat, Phase>, nextConn: nat,
    /** history: the id each connection registered, and what was handed to the mesh */
    names: map<nat, Text>, forwarded: seq<Forward>)

  datatype Step =
    | Accept
    | First(conn: nat, frame: seq<byte>)
    | Later(conn: nat, frame: seq<byte>, open: set<nat>)
    | Hangup(conn: nat)

  predicate Enabled(relay: Relay, step: Step) {
    match step
    case Accept => true
    case First(c, frame) => c in relay.conns && relay.conns[c].Opened? && FrameLenOk(|frame|)
    case Later(c, frame, _) => c in relay.conns && relay.conns[c].Live? && FrameLenOk(|frame|)
    case Hangup(c) => c in relay.conns && (relay.conns[c].Opened? || relay.conns[c].Live?)
  }

  function HandleSend(relay: Relay, c: nat, send: RelayPacket, open: set<nat>): (relay': Relay)
    requires c in relay.conns && relay.conns[c].Live? && send.Send?
  {
    if send.fromId != relay.conns[c].node then relay else
    match Delivered(relay.peers, send.fromId, send.toId, open)
    case Err(_) => relay.(conns := relay.conns[c := Failed])
    case Ok(true) => relay
    case Ok(false) => relay.(forwarded := relay.forwarded + [Forward(c, send.fromId, send.toId, send.payload)])
  }

  function Next(relay: Relay, step: Step): (relay': Relay)
    requires Enabled(relay, step)
  {
    match step
    case Accept =>
      relay.(conns := relay.conns[relay.nextConn := Opened], nextConn := relay.nextConn + 1)
    case First(c, frame) =>
      (match Parse(STREAM_MAGIC, frame)
       case Some(Register(node)) =>
         relay.(peers := Added(relay.peers, node, c), conns := relay.conns[c := Live(node)],
                names := relay.names[c := node])
       case _ => relay.(conns := relay.conns[c := Closed]))
    case Later(c, frame, open) =>
      (match Parse(STREAM_MAGIC, frame)
       case Some(Send(f, t, p)) => HandleSend(relay, c, Send(f, t, p), open)
       case _ => relay)
    case Hangup(c) =>
      (match relay.conns[c]
       case Live(node) => relay.(peers := Removed(relay.peers, node, c), conns := relay.conns[c := Closed])
       case _ => relay.(conns := relay.conns[c := Closed]))
  }

  const INITIAL := Relay(map[], map[], 1, map[], [])

  ghost predicate Run(relays: seq<Relay>, steps: seq<Step>) {
    && |relays| == |steps| + 1
    && relays[0] == INITIAL
    && forall i | 0 <= i < |steps| :: Enabled(relays[i], steps[i]) && relays[i + 1] == Next(relays[i], steps[i])
  }

  // ---------------------------------------------------------------- invariant

  /** The registry lists exactly the live connections, each once, under the id it registered. */
  ghost predicate Listed(relay: Relay) {
    && (forall node <- relay.peers :: relay.peers[node] != [])
    && (forall node <- relay.peers, c <- relay.peers[node] :: c in relay.conns && relay.conns[c] == Live(node))
    && (forall c <- relay.conns | relay.conns[c].Live? ::
          relay.conns[c].node in relay.peers && c in relay.peers[relay.conns[c].node])
    && (forall node <- relay.peers :: Distinct(relay.peers[node]))
  }

  ghost predicate Distinct(list: seq<nat>) {
    forall i, j | 0 <= i < j < |list| :: list[i] != list[j]
  }

  /** Registered ids fit a packet, no handler failed after registering, nothing spoofed goes out. */
  ghost predicate Orderly(relay: Relay) {
    && (forall c <- relay.conns :: c < relay.nextConn && !relay.conns[c].Failed?)
    && (forall c <- relay.conns | relay.conns[c].Live? ::
          c in relay.names && relay.names[c] == relay.conns[c].node)
    && (forall c <- relay.names :: c < relay.nextConn && (c in relay.conns ==> !relay.conns[c].Opened?))
    && (forall c <- relay.names :: Buildable(relay.names[c], []))
    && (forall f <- relay.forwarded :: f.conn in relay.names && relay.names[f.conn] == f.fromId)
  }

  ghost predicate FromSend(f: Forward) {
    AcceptedSend(STREAM_MAGIC, MAX_FRAME_LEN, f.fromId, f.toId, f.payload)
  }

  lemma {:induction false} RetainedElements(list: seq<nat>, conn: nat)
    ensures forall c :: c in Retained(list, conn) <==> c in list && c != conn
    ensures Distinct(list) ==> Distinct(Retained(list, conn))
  {
    if list != [] {
      RetainedElements(list[1..], conn);
      var r := Retained(list, conn);
      if Distinct(list) {
        assert Distinct(list[1..]);
        if list[0] != conn {
          assert r == [list[0]] + Retained(list[1..], conn);
          assert list[0] !in list[1..];
        }
      }
    }
  }

  lemma AddKeepsListed(relay: Relay, c: nat, node: Text)
    requires Listed(relay) && c in relay.conns && relay.conns[c].Opened?
    ensures Listed(relay.(peers := Added(relay.peers, node, c), conns := relay.conns[c := Live(node)]))
  {
    var peers' := Added(relay.peers, node, c);
    if node in relay.peers {
      assert c !in relay.peers[node];
      assert Distinct(peers'[node]);
    }
  }

  lemma RemoveKeepsListed(relay: Relay, c: nat)
    requires Listed(relay) && c in relay.conns && relay.conns[c].Live?
    ensures Listed(relay.(peers := Removed(relay.peers, relay.conns[c].node, c), conns := relay.conns[c := Closed]))
  {
    RetainedElements(relay.peers[relay.conns[c].node], c);
  }

  lemma CloseKeepsListed(relay: Relay, c: nat)
    requires Listed(relay) && c in relay.conns && relay.conns[c].Opened?
    ensures Listed(relay.(conns := relay.conns[c := Closed]))
  {
  }

  lemma AcceptKeeps(relay: Relay)
    requires Listed(relay) && Orderly(relay)
    ensures Listed(Next(relay, Accept)) && Orderly(Next(relay, Accept))
  {
    assert relay.nextConn !in relay.conns;
  }

  lemma RegisterKeeps(relay: Relay, c: nat, node: Text)
    requires Listed(relay) && Orderly(relay) && c in relay.conns && relay.conns[c].Opened? && Buildable(node, [])
    ensures var relay' := relay.(peers := Added(relay.peers, node, c), conns := relay.conns[c := Live(node)],
                                 names := relay.names[c := node]);
            Listed(relay') && Orderly(relay')
  {
    AddKeepsListed(relay, c, node);
  }

  lemma FirstKeeps(relay: Relay, c: nat, frame: seq<byte>)
    requires Listed(relay) && Orderly(relay) && Enabled(relay, First(c, frame))
    ensures Listed(Next(relay, First(c, frame))) && Orderly(Next(relay, First(c, frame)))
  {
    var packet := Parse(STREAM_MAGIC, frame);
    if packet.Some? && packet.value.Register? {
      BuildParsed(STREAM_MAGIC, frame);
      RegisterKeeps(relay, c, packet.value.nodeId);
    } else {
      CloseKeepsListed(relay, c);
    }
  }

  /** A sender that is its registered self cannot make `deliver_local` fail. */
  lemma SendOnlyForwards(relay: Relay, c: nat, send: RelayPacket, open: set<nat>)
    requires Orderly(relay) && c in relay.conns && relay.conns[c].Live? && send.Send?
    ensures var relay' := HandleSend(relay, c, send, open);
            var f := Forward(c, send.fromId, send.toId, send.payload);
            relay' == relay || (relay' == relay.(forwarded := relay.forwarded + [f]) && relay.names[c] == send.fromId)
  {
    assert Buildable(relay.names[c], []);
  }

  lemma LaterKeeps(relay: Relay, c: nat, frame: seq<byte>, open: set<nat>)
    requires Listed(relay) && Orderly(relay) && Enabled(relay, Later(c, frame, open))
    ensures Listed(Next(relay, Later(c, frame, open))) && Orderly(Next(relay, Later(c, frame, open)))
    ensures Next(relay, Later(c, frame, open)).conns == relay.conns
  {
    var packet := Parse(STREAM_MAGIC, frame);
    if packet.Some? && packet.value.Send? {
      SendOnlyForwards(relay, c, packet.value, open);
    }
  }

  lemma HangupKeeps(relay: Relay, c: nat)
    requires Listed(relay) && Orderly(relay) && Enabled(relay, Hangup(c))
    ensures Listed(Next(relay, Hangup(c))) && Orderly(Next(relay, Hangup(c)))
  {
    if relay.conns[c].Live? {
      RemoveKeepsListed(relay, c);
    } else {
      CloseKeepsListed(relay, c);
    }
  }

  lemma StepKeeps(relay: Relay, step: Step)
    requires Listed(relay) && Orderly(relay) && Enabled(relay, step)
    ensures Listed(Next(relay, step)) && Orderly(Next(relay, step))
  {
    match step
    case Accept => AcceptKeeps(relay);
    case First(c, frame) => FirstKeeps(relay, c, frame);
    case Later(c, frame, open) => LaterKeeps(relay, c, frame, open);
    case Hangup(c) => HangupKeeps(relay, c);
  }

  /** In every interleaving the registry is exactly the set of live connections. */
  lemma {:induction false} RegistryMatchesConnections(relays: seq<Relay>, steps: seq<Step>, n: nat)
    requires Run(relays, steps) && n <= |steps|
    ensures Listed(relays[n]) && Orderly(relays[n])
  {
    if n > 0 {
      RegistryMatchesConnections(relays, steps, n - 1);
      StepKeeps(relays[n - 1], steps[n - 1]);
    }
  }

  lemma ForwardedByLater(relay: Relay, step: Step, f: Forward)
    requires Orderly(relay) && Enabled(relay, step)
    requires f !in relay.forwarded && f in Next(relay, step).forwarded
    ensures FromSend(f)
  {
    assert step.Later?;
    var packet := Parse(STREAM_MAGIC, step.frame);
    SendOnlyForwards(relay, step.conn, packet.value, step.open);
    assert packet == Some(Send(f.fromId, f.toId, f.payload));
  }

  /** Whatever is handed to the mesh came in a Send of the connection that registered its sender. */
  lemma {:induction false} ForwardedAsRegistered(relays: seq<Relay>, steps: seq<Step>, n: nat, f: Forward)
    requires Run(relays, steps) && n <= |steps| && f in relays[n].forwarded
    ensures f.conn in relays[n].names && relays[n].names[f.conn] == f.fromId && FromSend(f)
  {
    RegistryMatchesConnections(relays, steps, n);
    assert n > 0;
    if f in relays[n - 1].forwarded {
      ForwardedAsRegistered(relays, steps, n - 1, f);
    } else {
      RegistryMatchesConnections(relays, steps, n - 1);
      ForwardedByLater(relays[n - 1], steps[n - 1], f);
    }
  }

  /**
   A connection is listed from its registration until its clean-up, under one id only, and
   the clean-up is never skipped: a live handler cannot fail on what it parses.
   */
  lemma ListedExactlyWhileLive(relays: seq<Relay>, steps: seq<Step>, n: nat, c: nat, node: Text)
    requires Run(relays, steps) && n <= |steps|
    ensures (node in relays[n].peers && c in relays[n].peers[node])
       <==> (c in relays[n].conns && relays[n].conns[c] == Live(node))
    ensures c in relays[n].conns ==> relays[n].conns[c] != Failed
    ensures n < |steps| && c in relays[n].conns && relays[n].conns[c] == Live(node) && steps[n] != Hangup(c)
            ==> relays[n + 1].conns[c] == Live(node)
  {
    RegistryMatchesConnections(relays, steps, n);
    if n < |steps| && steps[n].Later? {
      LaterKeeps(relays[n], steps[n].conn, steps[n].frame, steps[n].open);
    }
  }
}
