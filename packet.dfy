/** Packets travelling through the network. A message packet is made from a
    `msg` instruction and starts out at its start node. */
module Packets {
  import opened Wrappers
  import opened Instrs

  datatype MessagePacket = MessagePacket(timestamp: U32, startNode: U32, currentNode: U32, endNode: U32, id: U32)

  datatype IcmpReplyPacket = IcmpReplyPacket(timestamp: U32, whoAskedNode: U32, currentNode: U32, queriedNode: U32, nodeFound: bool)

  datatype IcmpReqPacket = IcmpReqPacket(timestamp: U32, whoAskedNode: U32, currentNode: U32, queriedNode: U32)

  /** `Packet`; the two ICMP variants carry the payload types exactly as
      declared (a request holds an `IcmpReplyPacket` and a reply an
      `IcmpReqPacket`). */
  datatype Packet = IcmpRequest(reply: IcmpReplyPacket) | IcmpReply(req: IcmpReqPacket) | Message(msg: MessagePacket)

  /** A packet that has not moved yet: it is still at its start node. */
  predicate AtStart(p: MessagePacket) {
    p.currentNode == p.startNode
  }

  /** `From<&MsgInstr> for MessagePacket`. */
  function FromMsgInstr(m: MsgInstr): (p: MessagePacket)
    ensures AtStart(p)
    ensures p.timestamp == Msg(m).Timestamp()
    ensures p.startNode == m.startNode && p.endNode == m.endNode && p.id == m.msgId
  {
    MessagePacket(m.timestamp, m.startNode, m.startNode, m.endNode, m.msgId)
  }

  /** The instruction a packet was made from. */
  function ToMsgInstr(p: MessagePacket): MsgInstr {
    MsgInstr(p.timestamp, p.id, p.startNode, p.endNode)
  }

  /** The conversion loses nothing, and the packets it makes are exactly the
      ones still at their start node. */
  lemma PacketRoundTrip(m: MsgInstr, p: MessagePacket)
    ensures ToMsgInstr(FromMsgInstr(m)) == m
    ensures FromMsgInstr(ToMsgInstr(p)) == p <==> AtStart(p)
  {
  }
}
