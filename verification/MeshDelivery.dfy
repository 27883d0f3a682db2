/** The relay's packets and the mesh's flooding together. */
module MeshDelivery {
  import F = Flood
  import C = RelayCodec

  /** Every packet handed to the mesh came in a Send that a relay accepted. */
  ghost predicate FromClients(net: F.Net) {
    forall id <- net.log.origins ::
      var packet := net.log.origins[id].packet;
      match packet.transport
      case Stream => C.AcceptedSend(C.STREAM_MAGIC, C.MAX_FRAME_LEN, packet.fromId, packet.toId, packet.payload)
      case Udp => C.AcceptedSend(C.UDP_MAGIC, C.UDP_BUFFER_LEN, packet.fromId, packet.toId, packet.payload)
  }

  /**
   Whatever the mesh offers a server's relay can be delivered: the Deliver packet can be
   built and respects the frame limit, however often the packet was passed on.
   */
  lemma DeliverFitsAfterMesh(nets: seq<F.Net>, steps: seq<F.Step>, n: nat, o: F.Offer)
    requires F.Run(nets, steps) && n <= |steps| && o in nets[n].log.offered && FromClients(nets[n])
    ensures C.Buildable(o.packet.fromId, [])
    ensures o.packet.transport.Stream? ==>
              C.FrameLenOk(|C.Layout(C.STREAM_MAGIC, C.TYPE_DELIVER, o.packet.fromId, [], o.packet.payload)|)
    ensures o.packet.transport.Udp? ==>
              |C.Layout(C.UDP_MAGIC, C.TYPE_DELIVER, o.packet.fromId, [], o.packet.payload)| < C.UDP_BUFFER_LEN
  {
    F.RunSound(nets, steps, n);
    assert F.OfferSound(nets[n], o);
    var packet := o.packet;
    match packet.transport
    case Stream => C.DeliverFits(C.STREAM_MAGIC, C.MAX_FRAME_LEN, packet.fromId, packet.toId, packet.payload);
    case Udp => C.DeliverFits(C.UDP_MAGIC, C.UDP_BUFFER_LEN, packet.fromId, packet.toId, packet.payload);
  }
}
