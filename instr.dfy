/** Simulation instructions (`MsgInstr`, `RepInstr`, `EndInstr`, `Instr`):
    a message to send, a report request with an optional message id, and the
    end-of-simulation marker, each stamped with the time it happens. */
module Instrs {
  import opened Wrappers

  /** `MsgInstr::new(timestamp, msg_id, start_node, end_node)`; the getters
      `timestamp`, `msg_id`, `start_node`, `end_node` are the field names. */
  datatype MsgInstr = MsgInstr(timestamp: U32, msgId: U32, startNode: U32, endNode: U32) {
    predicate IsEndSim() { false }
  }

  /** `RepInstr::new(timestamp, msg_id)`: a report of one message, or of all
      of them when the id is absent. */
  datatype RepInstr = RepInstr(timestamp: U32, msgId: Option<U32>) {
    predicate IsEndSim() { false }
  }

  /** `EndInstr::new(timestamp)`: the end of the simulation. */
  datatype EndInstr = EndInstr(timestamp: U32) {
    predicate IsEndSim() { true }
  }

  datatype Instr = Msg(msg: MsgInstr) | Rep(rep: RepInstr) | EndSim(end: EndInstr) {
    /** `Instr::timestamp`: the time stored in whichever instruction this is. */
    function Timestamp(): (t: U32)
      ensures Msg? ==> t == msg.timestamp
      ensures Rep? ==> t == rep.timestamp
      ensures EndSim? ==> t == end.timestamp
    {
      match this
      case Msg(m) => m.timestamp
      case Rep(r) => r.timestamp
      case EndSim(e) => e.timestamp
    }

    /** `Instr::is_endsim`, dispatched to the variant's own `is_endsim`. */
    function IsEndSim(): (b: bool)
      ensures b <==> EndSim?
    {
      match this
      case Msg(m) => m.IsEndSim()
      case Rep(r) => r.IsEndSim()
      case EndSim(e) => e.IsEndSim()
    }
  }

  /** What the constructors store comes back unchanged from the getters. */
  lemma ConstructorsThenGetters(t: U32, id: U32, start: U32, end: U32, rid: Option<U32>)
    ensures var m := Msg(MsgInstr(t, id, start, end));
      m.Timestamp() == t && m.msg.msgId == id && m.msg.startNode == start && m.msg.endNode == end && !m.IsEndSim()
    ensures var r := Rep(RepInstr(t, rid));
      r.Timestamp() == t && r.rep.msgId == rid && !r.IsEndSim()
    ensures var e := EndSim(EndInstr(t));
      e.Timestamp() == t && e.IsEndSim()
  {
  }
}
