/** The topology parser's per-state handlers (`NtwkParseState::parse_new_node`,
    `parse_conn_list`, `handle_end_node`, `handle_end_net`). Each handler is a
    method on the network under construction, proved against a function that
    gives its effect on the node records. */
module NtwkFileUtils {
  import opened Wrappers
  import opened Text
  import opened NtwkCodes
  import opened NtwkNodes

  const EndNodeToken: string := "endNode"
  const EndNetToken: string := "endNet"

  /** `sscanf!(line, "{}", id)`: the whole line is one `u32`. */
  function ScanId(line: string): Option<U32> {
    ParseU32(line)
  }

  /** `sscanf!(line, "{},{},{}", id, count, delay)`: three `u32`s separated by
      single commas and nothing else. */
  function ScanNodeHeader(line: string): (r: Option<(U32, U32, U32)>)
    ensures r.Some? ==> |Split(line, ',')| == 3
  {
    var parts := Split(line, ',');
    if |parts| == 3 && ParseU32(parts[0]).Some? && ParseU32(parts[1]).Some? && ParseU32(parts[2]).Some?
    then Some((ParseU32(parts[0]).value, ParseU32(parts[1]).value, ParseU32(parts[2]).value))
    else None
  }

  /** The header line written for a node scans back to the same three numbers. */
  lemma ScanRenderedHeader(id: U32, count: U32, delay: U32)
    ensures ScanNodeHeader(Render(id) + "," + Render(count) + "," + Render(delay)) == Some((id, count, delay))
  {
    var pieces := [Render(id), Render(count), Render(delay)];
    var line := Render(id) + "," + Render(count) + "," + Render(delay);
    JoinThree(pieces, line);
    assert !IsDigit(',');
    RenderParse(id);
    RenderParse(count);
    RenderParse(delay);
    assert forall i :: 0 <= i < |pieces| ==> ',' !in pieces[i];
    SplitJoin(pieces, ',');
    assert Split(line, ',') == pieces;
  }

  lemma JoinThree(pieces: seq<string>, line: string)
    requires |pieces| == 3 && line == pieces[0] + "," + pieces[1] + "," + pieces[2]
    ensures Join(pieces, ',') == line
  {
    assert Join(pieces[2..], ',') == pieces[2];
    assert Join(pieces[1..], ',') == pieces[1] + [','] + pieces[2];
  }

  /** The parser's observable state: the node records, the status and the
      next state. */
  datatype Snapshot = Snapshot(nodes: seq<NodeRecord>, status: NtwkErrCode, state: NtwkParseState)

  /** Effect of `parse_new_node` on the node records. */
  function NewNodeSpec(nodes: seq<NodeRecord>, line: string): (r: Snapshot)
    ensures r.state == GetConnections
    ensures r.status in {Okay, BadLine, HasZeroConnections}
    ensures r.status == BadLine <==> ScanNodeHeader(line).None?
    ensures r.status == HasZeroConnections <==> ScanNodeHeader(line).Some? && ScanNodeHeader(line).value.1 == 0
    ensures r.status != Okay ==> r.nodes == nodes
    ensures r.status == Okay ==>
      var (id, count, delay) := ScanNodeHeader(line).value;
      r.nodes == nodes + [NodeRecord(id, count, [], delay)] && count > 0
  {
    match ScanNodeHeader(line)
    case None => Snapshot(nodes, BadLine, GetConnections)
    case Some((id, count, delay)) =>
      if count == 0 then Snapshot(nodes, HasZeroConnections, GetConnections)
      else Snapshot(nodes + [NodeRecord(id, count, [], delay)], Okay, GetConnections)
  }

  /** Effect of `parse_conn_list`: the id goes onto the last node, and the
      parser moves on once that node has all its connections. */
  function ConnListSpec(nodes: seq<NodeRecord>, line: string): (r: Snapshot)
    requires |nodes| > 0
    ensures |r.nodes| == |nodes| && r.nodes[..|nodes| - 1] == nodes[..|nodes| - 1]
    ensures r.status in {Okay, BadLine}
    ensures r.status == BadLine <==> ScanId(line).None?
    ensures r.status == BadLine ==> r.nodes == nodes && r.state == GetConnections
    ensures r.status == Okay ==>
      var last := nodes[|nodes| - 1];
      var last' := r.nodes[|nodes| - 1];
      && last' == last.(connList := last.connList + [ScanId(line).value])
      && (r.state == EndNode <==> |last'.connList| >= last'.connCount)
      && (r.state != EndNode ==> r.state == GetConnections)
  {
    match ScanId(line)
    case None => Snapshot(nodes, BadLine, GetConnections)
    case Some(conn) =>
      var last := nodes[|nodes| - 1];
      var last' := last.(connList := last.connList + [conn]);
      Snapshot(nodes[..|nodes| - 1] + [last'], Okay,
               if |last'.connList| >= last'.connCount then EndNode else GetConnections)
  }

  /** `handle_end_node`: the only acceptable line is exactly `endNode`; in
      either case the parser next expects `endNet` or another node. */
  function HandleEndNode(line: string): (r: (NtwkErrCode, NtwkParseState))
    ensures r.1 == EndNet
    ensures r.0 == Okay <==> line == "endNode"
    ensures r.0 != Okay ==> r.0 == MismatchEndNodeToken
  {
    if line == EndNodeToken then (Okay, EndNet) else (MismatchEndNodeToken, EndNet)
  }

  /** Effect of `handle_end_net`: `endNet` stops parsing, anything else is
      read as the header of another node. */
  function EndNetSpec(nodes: seq<NodeRecord>, line: string): (r: Snapshot)
    ensures line == "endNet" ==> r == Snapshot(nodes, Okay, StopParse)
    ensures line != "endNet" ==> r == NewNodeSpec(nodes, line)
  {
    if line == EndNetToken then Snapshot(nodes, Okay, StopParse) else NewNodeSpec(nodes, line)
  }

  /** `parse_new_node`: push a fresh node when the header scans and declares
      at least one connection. */
  method ParseNewNode(ntwk: Ntwk, line: string, ghost recs: seq<NodeRecord>)
    returns (err: NtwkErrCode, next: NtwkParseState)
    requires ntwk.Models(recs)
    modifies ntwk
    ensures ntwk.Models(NewNodeSpec(recs, line).nodes)
    ensures err == NewNodeSpec(recs, line).status && next == NewNodeSpec(recs, line).state
    ensures |ntwk.nodeList| >= |old(ntwk.nodeList)| && ntwk.nodeList[..|old(ntwk.nodeList)|] == old(ntwk.nodeList)
    ensures forall i :: |old(ntwk.nodeList)| <= i < |ntwk.nodeList| ==> fresh(ntwk.nodeList[i])
  {
    err := Okay;
    match ScanNodeHeader(line) {
      case None =>
        err := BadLine;
      case Some((id, count, delay)) =>
        var node := NtwkNode.New(id, count, delay);
        match node {
          case Err(e) =>
            err := e;
            return err, GetConnections;
          case Ok(n) =>
            ntwk.nodeList := ntwk.nodeList + [n];
        }
    }
    next := GetConnections;
  }

  /** `parse_conn_list`: push the scanned id onto the last node
      (`node_list.last().unwrap()`, so the list must not be empty). */
  method ParseConnList(ntwk: Ntwk, line: string, ghost recs: seq<NodeRecord>)
    returns (err: NtwkErrCode, next: NtwkParseState)
    requires ntwk.Models(recs)
    requires |ntwk.nodeList| > 0
    modifies ntwk.nodeList[|ntwk.nodeList| - 1]
    ensures ntwk.nodeList == old(ntwk.nodeList)
    ensures ntwk.Models(ConnListSpec(recs, line).nodes)
    ensures err == ConnListSpec(recs, line).status && next == ConnListSpec(recs, line).state
  {
    next := GetConnections;
    err := Okay;
    var nodeRef := ntwk.nodeList[|ntwk.nodeList| - 1];
    match ScanId(line) {
      case None =>
        err := BadLine;
      case Some(tempId) =>
        nodeRef.Push(tempId);
        if nodeRef.ConnLen() >= nodeRef.connCount {
          next := EndNode;
        }
    }
    ghost var spec := ConnListSpec(recs, line).nodes;
    forall i | 0 <= i < |ntwk.nodeList| ensures ntwk.nodeList[i].Record() == spec[i] {
      if i < |ntwk.nodeList| - 1 {
        assert ntwk.nodeList[i] != nodeRef;
        assert spec[i] == spec[..|recs| - 1][i];
      }
    }
  }

  /** `handle_end_net`. */
  method HandleEndNet(ntwk: Ntwk, line: string, ghost recs: seq<NodeRecord>)
    returns (err: NtwkErrCode, next: NtwkParseState)
    requires ntwk.Models(recs)
    modifies ntwk
    ensures ntwk.Models(EndNetSpec(recs, line).nodes)
    ensures err == EndNetSpec(recs, line).status && next == EndNetSpec(recs, line).state
    ensures |ntwk.nodeList| >= |old(ntwk.nodeList)| && ntwk.nodeList[..|old(ntwk.nodeList)|] == old(ntwk.nodeList)
    ensures forall i :: |old(ntwk.nodeList)| <= i < |ntwk.nodeList| ==> fresh(ntwk.nodeList[i])
  {
    if line == EndNetToken {
      err, next := Okay, StopParse;
    } else {
      err, next := ParseNewNode(ntwk, line, recs);
    }
  }
}
