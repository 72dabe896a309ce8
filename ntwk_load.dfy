/** `Ntwk::from_file`: the line-driven topology parser. Lines are taken as
    already read; each is stripped of its comment, blank results are
    skipped, and the rest are dispatched on the parser state. The first
    failing line stops the load. */
module NtwkLoad {
  import opened Wrappers
  import opened Comments
  import opened NtwkCodes
  import opened NtwkNodes
  import opened NtwkFileUtils

  const Init: Snapshot := Snapshot([], Okay, NewNode)

  /** What the parser knows about its records whenever the status is Okay:
      every node declares at least one connection, every node but the last
      is complete, and the last one is still filling exactly while the state
      is GetConnections. In particular GetConnections implies a last node,
      so `node_list.last().unwrap()` cannot fail. */
  predicate Consistent(p: Snapshot) {
    var n := |p.nodes|;
    p.status == Okay ==>
      && (forall i :: 0 <= i < n ==> p.nodes[i].connCount > 0)
      && (forall i :: 0 <= i < n - 1 ==> p.nodes[i].Complete())
      && (p.state == NewNode <==> n == 0)
      && (p.state == GetConnections ==> n > 0 && |p.nodes[n - 1].connList| < p.nodes[n - 1].connCount)
      && (p.state != GetConnections && n > 0 ==> p.nodes[n - 1].Complete())
  }

  /** One non-blank line handed to the handler of the current state; the
      handlers keep the parser consistent. */
  function Dispatch(p: Snapshot, line: string): (r: Snapshot)
    requires Consistent(p) && p.status == Okay && p.state != StopParse
    ensures Consistent(r)
  {
    match p.state
    case NewNode => NewNodeSpec(p.nodes, line)
    case GetConnections => ConnListConsistent(p, line); ConnListSpec(p.nodes, line)
    case EndNode => var (err, next) := HandleEndNode(line); Snapshot(p.nodes, err, next)
    case EndNet => EndNetSpec(p.nodes, line)
  }

  lemma ConnListConsistent(p: Snapshot, line: string)
    requires Consistent(p) && p.status == Okay && p.state == GetConnections
    ensures Consistent(ConnListSpec(p.nodes, line))
  {
    var q := ConnListSpec(p.nodes, line);
    if q.status == Okay {
      var n := |p.nodes|;
      forall i | 0 <= i < n - 1
        ensures q.nodes[i] == p.nodes[i]
      {
        assert q.nodes[i] == q.nodes[..n - 1][i];
      }
    }
  }

  /** The `(status, state)` loop from snapshot `p` over `lines`. */
  function RunFrom(p: Snapshot, lines: seq<string>): (r: Snapshot)
    requires Consistent(p)
    ensures Consistent(r)
    decreases |lines|
  {
    if lines == [] || p.status != Okay then p
    else
      var s := StripComment(lines[0]);
      if s == [] then RunFrom(p, lines[1..])
      else if p.state == StopParse then p
      else RunFrom(Dispatch(p, s), lines[1..])
  }

  /** The loader's answer: the node records, or the first failing status. */
  function Load(lines: seq<string>): Result<seq<NodeRecord>, NtwkErrCode> {
    var p := RunFrom(Init, lines);
    if p.status == Okay then Ok(p.nodes) else Err(p.status)
  }

  /** `Ntwk::from_file` after the file is opened. */
  method FromLines(lines: seq<string>) returns (r: Result<Ntwk, NtwkErrCode>)
    ensures r.Ok? <==> Load(lines).Ok?
    ensures r.Err? ==> r.error == Load(lines).error
    ensures r.Ok? ==> fresh(r.value) && r.value.Models(Load(lines).value)
  {
    var status := Okay;
    var state := NewNode;
    var ntwk := new Ntwk();
    ghost var recs: seq<NodeRecord> := [];

    for i := 0 to |lines|
      invariant Consistent(Snapshot(recs, status, state))
      invariant RunFrom(Snapshot(recs, status, state), lines[i..]) == RunFrom(Init, lines)
      invariant ntwk.Models(recs)
      invariant forall k :: 0 <= k < |ntwk.nodeList| ==> fresh(ntwk.nodeList[k])
    {
      assert lines[i..][1..] == lines[i + 1..];
      if status != Okay {
        break;
      }
      var s := StripComment(lines[i]);
      if s == [] {
        continue;
      }
      ghost var p := Snapshot(recs, status, state);
      match state {
        case NewNode =>
          status, state := ParseNewNode(ntwk, s, recs);
        case GetConnections =>
          status, state := ParseConnList(ntwk, s, recs);
        case EndNode =>
          status, state := HandleEndNode(s).0, HandleEndNode(s).1;
        case EndNet =>
          status, state := HandleEndNet(ntwk, s, recs);
        case StopParse =>
          break;
      }
      recs := Dispatch(p, s).nodes;
    }
    assert RunFrom(Snapshot(recs, status, state), []) == Snapshot(recs, status, state);

    match status {
      case Okay => r := Ok(ntwk);
      case _ => r := Err(status);
    }
  }

  // ---------------------------------------------------------------------
  // Properties of the loop

  /** A line that is blank once its comment is stripped changes nothing. */
  lemma BlankLineSkipped(p: Snapshot, line: string, rest: seq<string>)
    requires Consistent(p) && StripComment(line) == []
    ensures RunFrom(p, [line] + rest) == RunFrom(p, rest)
  {
    assert ([line] + rest)[1..] == rest;
  }

  /** A failing status ends the loop, and it is the load's answer. */
  lemma FailureIsFinal(p: Snapshot, lines: seq<string>)
    requires Consistent(p) && p.status != Okay
    ensures RunFrom(p, lines) == p
  {
  }

  /** Once StopParse is reached the remaining lines are ignored. */
  lemma {:induction false} StopParseIgnoresRest(p: Snapshot, lines: seq<string>)
    requires Consistent(p) && p.state == StopParse
    ensures RunFrom(p, lines) == p
    decreases |lines|
  {
    if lines != [] && p.status == Okay && StripComment(lines[0]) == [] {
      StopParseIgnoresRest(p, lines[1..]);
    }
  }

  /** Running over two pieces of input is running over the first, then over
      the second from where the first left off. */
  lemma {:induction false} RunFromAppend(p: Snapshot, a: seq<string>, b: seq<string>)
    requires Consistent(p)
    ensures RunFrom(p, a + b) == RunFrom(RunFrom(p, a), b)
    decreases |a|
  {
    if a == [] {
      assert a + b == b;
    } else if p.status == Okay {
      assert (a + b)[0] == a[0] && (a + b)[1..] == a[1..] + b;
      var s := StripComment(a[0]);
      if s == [] {
        RunFromAppend(p, a[1..], b);
      } else if p.state == StopParse {
        StopParseIgnoresRest(p, b);
      } else {
        RunFromAppend(Dispatch(p, s), a[1..], b);
      }
    }
  }

  /** The first failing status of any prefix of the input is the answer of
      the whole load. */
  lemma FailingPrefixFailsLoad(lines: seq<string>, k: nat)
    requires k <= |lines| && RunFrom(Init, lines[..k]).status != Okay
    ensures Load(lines) == Err(RunFrom(Init, lines[..k]).status)
  {
    RunFromAppend(Init, lines[..k], lines[k..]);
    assert lines[..k] + lines[k..] == lines;
  }

  /** Input that reaches `endNet` loads exactly as if it ended there. */
  lemma EndNetEndsLoad(a: seq<string>, b: seq<string>)
    requires RunFrom(Init, a).state == StopParse
    ensures Load(a + b) == Load(a)
  {
    RunFromAppend(Init, a, b);
    StopParseIgnoresRest(RunFrom(Init, a), b);
  }

  /** Every loaded node declares at least one connection; every node but the
      last holds exactly its declared number of connections, and so does the
      last one unless the input ended in the middle of its connection list. */
  lemma LoadedNodesWellFormed(lines: seq<string>)
    requires Load(lines).Ok?
    ensures var nodes := Load(lines).value;
      && (forall i :: 0 <= i < |nodes| ==> nodes[i].connCount > 0)
      && (forall i :: 0 <= i < |nodes| - 1 ==> nodes[i].Complete())
      && (RunFrom(Init, lines).state != GetConnections ==> forall i :: 0 <= i < |nodes| ==> nodes[i].Complete())
  {
  }

  /** Input that ends before `endNet` (here, before `endNode`) still loads. */
  lemma TruncatedInputLoads()
    ensures Load(["1,1,0", "2"]) == Ok([NodeRecord(1, 1, [2], 0)])
  {
    var p1 := Snapshot([NodeRecord(1, 1, [], 0)], Okay, GetConnections);
    var p2 := Snapshot([NodeRecord(1, 1, [2], 0)], Okay, EndNode);
    FirstHeader();
    SecondId();
    HeaderLine110();
    IdLine2();
    var none: seq<string> := [];
    var hdr: string, id: string := "1,1,0", "2";
    RunOneLine(p1, id, none);
    assert RunFrom(p1, [id]) == p2 by {
      assert [id] + none == [id];
    }
    RunOneLine(Init, hdr, [id]);
    assert [hdr, id] == [hdr] + [id];
  }

  lemma FirstHeader()
    ensures Dispatch(Init, "1,1,0") == Snapshot([NodeRecord(1, 1, [], 0)], Okay, GetConnections)
  {
    HeaderLine110();
  }

  lemma SecondId()
    ensures Dispatch(Snapshot([NodeRecord(1, 1, [], 0)], Okay, GetConnections), "2")
         == Snapshot([NodeRecord(1, 1, [2], 0)], Okay, EndNode)
  {
    IdLine2();
    var none: seq<U32> := [];
    var nodes := [NodeRecord(1, 1, [], 0)];
    assert nodes[..0] == [] && none + [2] == [2];
  }

  /** Unfolding the loop by one non-blank line. */
  lemma RunOneLine(p: Snapshot, line: string, rest: seq<string>)
    requires Consistent(p) && p.status == Okay && p.state != StopParse
    requires StripComment(line) == line != []
    ensures RunFrom(p, [line] + rest) == RunFrom(Dispatch(p, line), rest)
  {
    var lines := [line] + rest;
    assert lines != [] && lines[0] == line && lines[1..] == rest;
    assert RunFrom(p, lines) == RunFrom(Dispatch(p, StripComment(lines[0])), lines[1..]);
  }

  lemma HeaderLine110()
    ensures StripComment("1,1,0") == "1,1,0" && ScanNodeHeader("1,1,0") == Some((1, 1, 0))
  {
    NodeLine(1, 1, 0);
    assert Text.Render(1) == "1" && Text.Render(0) == "0";
    assert Text.Render(1) + "," + Text.Render(1) + "," + Text.Render(0) == "1,1,0";
  }

  lemma IdLine2()
    ensures StripComment("2") == "2" && ScanId("2") == Some(2)
  {
    IdLine(2);
    assert Text.Render(2) == "2";
  }

  lemma NodeLine(id: U32, count: U32, delay: U32)
    ensures var line := Text.Render(id) + "," + Text.Render(count) + "," + Text.Render(delay);
      StripComment(line) == line && line != [] && ScanNodeHeader(line) == Some((id, count, delay))
  {
    var line := Text.Render(id) + "," + Text.Render(count) + "," + Text.Render(delay);
    ScanRenderedHeader(id, count, delay);
    Text.RenderParse(id);
    Text.RenderParse(count);
    Text.RenderParse(delay);
    assert !Text.IsDigit('#') && '#' != ',';
    assert '#' !in line;
  }

  lemma IdLine(id: U32)
    ensures StripComment(Text.Render(id)) == Text.Render(id) != []
    ensures ScanId(Text.Render(id)) == Some(id)
  {
    Text.RenderParse(id);
  }
}
