/** The earlier instruction type, whose end marker is a bare `u32` rather
    than an `EndInstr`. It carries the same information as the current one:
    the conversions below are mutually inverse and keep the timestamp. */
module LegacyInstrs {
  import opened Wrappers
  import Instrs

  /** The earlier `MsgInstr` and `RepInstr` have the same fields as the
      current ones, so their values are shared. */
  datatype Instr = Msg(msg: Instrs.MsgInstr) | Rep(rep: Instrs.RepInstr) | EndSim(time: U32) {
    /** `Instr::timestamp`. */
    function Timestamp(): (t: U32)
      ensures Msg? ==> t == msg.timestamp
      ensures Rep? ==> t == rep.timestamp
      ensures EndSim? ==> t == time
    {
      match this
      case Msg(m) => m.timestamp
      case Rep(r) => r.timestamp
      case EndSim(u) => u
    }
  }

  function FromCurrent(i: Instrs.Instr): (r: Instr)
    ensures r.Timestamp() == i.Timestamp()
    ensures r.EndSim? <==> i.IsEndSim()
  {
    match i
    case Msg(m) => Msg(m)
    case Rep(rp) => Rep(rp)
    case EndSim(e) => EndSim(e.timestamp)
  }

  function ToCurrent(i: Instr): (r: Instrs.Instr)
    ensures r.Timestamp() == i.Timestamp()
    ensures r.IsEndSim() <==> i.EndSim?
  {
    match i
    case Msg(m) => Instrs.Msg(m)
    case Rep(rp) => Instrs.Rep(rp)
    case EndSim(u) => Instrs.EndSim(Instrs.EndInstr(u))
  }

  /** Nothing is lost going either way between the two shapes. */
  lemma RoundTrips(prior: Instr, cur: Instrs.Instr)
    ensures FromCurrent(ToCurrent(prior)) == prior
    ensures ToCurrent(FromCurrent(cur)) == cur
  {
  }

  /** `MsgInstr::new`, `RepInstr::new` and `EndSim(t)` of the earlier copy all
      report the time they were given. */
  lemma ConstructorsKeepTime(t: U32, id: U32, start: U32, end: U32, rid: Option<U32>)
    ensures Msg(Instrs.MsgInstr(t, id, start, end)).Timestamp() == t
    ensures Rep(Instrs.RepInstr(t, rid)).Timestamp() == t
    ensures Rep(Instrs.RepInstr(t, rid)).rep.msgId == rid
    ensures EndSim(t).Timestamp() == t
  {
  }
}
