/** `parse_instr`: one line of a simulation file, as comma-separated
    positional tokens `time,kind[,id[,start[,end]]]`. Tokens are not trimmed;
    only the first five are read. */
module InstrParse {
  import opened Wrappers
  import opened Text
  import opened Instrs

  /** `SimErrCode`. */
  datatype SimErrCode =
    | Okay
    | MismatchEndSimToken
    | UnknownInstrKind
    | NoId
    | NoTimestamp
    | NoStartNode
    | NoEndNode
    | BadFile
    | BadLine
    | EmptyContents

  const MsgKind: string := "msg"
  const RepKind: string := "rep"
  const EndSimKind: string := "endSim"

  /** `parse_tok::<u32>` on the `k`-th token, or nothing when the line has
      fewer tokens (the local `Option` keeps its initial `None`). */
  function Field(toks: seq<string>, k: nat): (r: Option<U32>)
    ensures r.Some? <==> k < |toks| && ParseU32(toks[k]).Some?
    ensures r.Some? ==> r == ParseU32(toks[k])
  {
    if k < |toks| then ParseU32(toks[k]) else None
  }

  /** The instruction the tokens of a line denote. The kind token is parsed
      as a `String`, which cannot fail, so it is present exactly when there
      is a second token. */
  function ParseTokens(toks: seq<string>): (r: Result<Instr, SimErrCode>)
    ensures Field(toks, 0).None? ==> r == Err(NoTimestamp)
    ensures r.Ok? ==> Field(toks, 0) == Some(r.value.Timestamp())
    ensures r.Err? ==> r.error in {NoTimestamp, BadLine, UnknownInstrKind, NoId, NoStartNode, NoEndNode}
    ensures r == Err(BadLine) <==> Field(toks, 0).Some? && |toks| < 2
    ensures r == Err(UnknownInstrKind) <==>
      Field(toks, 0).Some? && |toks| >= 2 && toks[1] !in {MsgKind, RepKind, EndSimKind}
    ensures r == Err(NoId) <==>
      Field(toks, 0).Some? && |toks| >= 2 && toks[1] == MsgKind && Field(toks, 2).None?
    ensures r == Err(NoStartNode) <==>
      Field(toks, 0).Some? && |toks| >= 2 && toks[1] == MsgKind && Field(toks, 2).Some? && Field(toks, 3).None?
    ensures r == Err(NoEndNode) <==>
      && Field(toks, 0).Some? && |toks| >= 2 && toks[1] == MsgKind
      && Field(toks, 2).Some? && Field(toks, 3).Some? && Field(toks, 4).None?
    ensures r.Ok? && r.value.Msg? <==>
      && Field(toks, 0).Some? && |toks| >= 2 && toks[1] == MsgKind
      && Field(toks, 2).Some? && Field(toks, 3).Some? && Field(toks, 4).Some?
    ensures r.Ok? && r.value.Msg? ==>
      r.value.msg == MsgInstr(Field(toks, 0).value, Field(toks, 2).value, Field(toks, 3).value, Field(toks, 4).value)
    ensures r.Ok? && r.value.Rep? <==> Field(toks, 0).Some? && |toks| >= 2 && toks[1] == RepKind
    ensures r.Ok? && r.value.Rep? ==> r.value.rep.msgId == Field(toks, 2)
    ensures r.Ok? && r.value.EndSim? <==> Field(toks, 0).Some? && |toks| >= 2 && toks[1] == EndSimKind
  {
    match Field(toks, 0)
    case None => Err(NoTimestamp)
    case Some(time) =>
      if |toks| < 2 then Err(BadLine)
      else if toks[1] == MsgKind then
        match (Field(toks, 2), Field(toks, 3), Field(toks, 4))
        case (None, _, _) => Err(NoId)
        case (Some(_), None, _) => Err(NoStartNode)
        case (Some(_), Some(_), None) => Err(NoEndNode)
        case (Some(id), Some(start), Some(end)) => Ok(Msg(MsgInstr(time, id, start, end)))
      else if toks[1] == RepKind then Ok(Rep(RepInstr(time, Field(toks, 2))))
      else if toks[1] == EndSimKind then Ok(EndSim(EndInstr(time)))
      else Err(UnknownInstrKind)
  }

  /** `parse_instr`: the line split at every comma, read as tokens. The
      timestamp is the first token, and the kind of a parsed instruction is
      the second token exactly. */
  function ParseInstr(line: string): (r: Result<Instr, SimErrCode>)
    ensures r == Err(NoTimestamp) <==> ParseU32(Split(line, ',')[0]).None?
    ensures r.Ok? ==> ParseU32(Split(line, ',')[0]) == Some(r.value.Timestamp())
    ensures r.Ok? ==> |Split(line, ',')| >= 2
    ensures r.Ok? ==>
      Split(line, ',')[1] == if r.value.Msg? then MsgKind else if r.value.Rep? then RepKind else EndSimKind
  {
    ParseTokens(Split(line, ','))
  }

  /** Tokens after the fifth are never looked at. */
  lemma FirstFiveTokensOnly(toks: seq<string>, extra: seq<string>)
    requires |toks| >= 5
    ensures ParseTokens(toks + extra) == ParseTokens(toks)
  {
    var all := toks + extra;
    assert all[0] == toks[0] && all[1] == toks[1] && all[2] == toks[2];
    assert all[3] == toks[3] && all[4] == toks[4];
    assert Field(all, 0) == Field(toks, 0) && Field(all, 2) == Field(toks, 2);
    assert Field(all, 3) == Field(toks, 3) && Field(all, 4) == Field(toks, 4);
  }

  /** A line whose first token is a number but which has no comma is a
      `BadLine`, and so is nothing else. */
  lemma {:induction false} BadLineIffNoComma(line: string)
    ensures ParseInstr(line) == Err(BadLine) <==> ',' !in line && ParseU32(line).Some?
  {
    var toks := Split(line, ',');
    if ',' !in line {
      SplitWithoutSep(line, ',');
    } else {
      // a single piece would be the whole line, which holds a comma
      JoinSplit(line, ',');
    }
  }

  /** The text a tool would write for an instruction: `t,msg,id,start,end`,
      `t,rep,id`, `t,rep` or `t,endSim`. */
  function RenderTokens(i: Instr): (r: seq<string>)
    ensures |r| >= 2
  {
    match i
    case Msg(m) => [Render(m.timestamp), MsgKind, Render(m.msgId), Render(m.startNode), Render(m.endNode)]
    case Rep(RepInstr(t, Some(id))) => [Render(t), RepKind, Render(id)]
    case Rep(RepInstr(t, None)) => [Render(t), RepKind]
    case EndSim(e) => [Render(e.timestamp), EndSimKind]
  }

  function RenderInstr(i: Instr): string {
    Join(RenderTokens(i), ',')
  }

  /** Every instruction reads back from its own text. */
  lemma ParseRendered(i: Instr)
    ensures ParseInstr(RenderInstr(i)) == Ok(i)
  {
    var toks := RenderTokens(i);
    assert !IsDigit(',');
    assert ',' !in MsgKind && ',' !in RepKind && ',' !in EndSimKind;
    match i {
      case Msg(m) =>
        RenderParse(m.timestamp);
        RenderParse(m.msgId);
        RenderParse(m.startNode);
        RenderParse(m.endNode);
      case Rep(RepInstr(t, Some(id))) =>
        RenderParse(t);
        RenderParse(id);
      case Rep(RepInstr(t, None)) =>
        RenderParse(t);
      case EndSim(e) =>
        RenderParse(e.timestamp);
    }
    SplitJoin(toks, ',');
  }
}
