/** A topology node (`NtwkNode`) and the network under construction (`Ntwk`),
    whose node list the loader's handlers grow, pushing connections onto the
    last node in place. */
module NtwkNodes {
  import opened Wrappers
  import opened NtwkCodes

  /** The value a node holds: its id, its declared connection count, the
      neighbour ids read so far, and its queue delay. */
  datatype NodeRecord = NodeRecord(id: U32, connCount: nat, connList: seq<U32>, queueDelay: U32) {
    /** Every declared connection has been read. */
    predicate Complete() {
      |connList| == connCount
    }
  }

  /** `NtwkNode`. The id, count and delay never change after construction
      (the getters `id()` and `conn_count()` read these constants); only the
      connection list grows. The count is a `usize` converted from the `u32`
      read, which cannot fail on a 32- or 64-bit target. */
  class NtwkNode {
    const id: U32
    const connCount: nat
    const queueDelay: U32
    var connList: seq<U32>

    constructor (id: U32, connCount: nat, queueDelay: U32)
      ensures this.id == id && this.connCount == connCount && this.queueDelay == queueDelay
      ensures connList == []
    {
      this.id := id;
      this.connCount := connCount;
      this.queueDelay := queueDelay;
      connList := [];
    }

    function Record(): NodeRecord
      reads this
    {
      NodeRecord(id, connCount, connList, queueDelay)
    }

    /** `conn_len`: the number of connections read so far. */
    function ConnLen(): (n: nat)
      reads this
      ensures n == |connList| == |Record().connList|
    {
      |connList|
    }

    /** `push`: one more neighbour id at the end of the list. */
    method Push(conn: U32)
      modifies this
      ensures connList == old(connList) + [conn]
      ensures ConnLen() == old(ConnLen()) + 1
    {
      connList := connList + [conn];
    }

    /** `NtwkNode::new`: refuses a node that declares no connections. */
    static method New(id: U32, connCount: U32, queueDelay: U32) returns (r: Result<NtwkNode, NtwkErrCode>)
      ensures r.Err? <==> connCount == 0
      ensures r.Err? ==> r.error == HasZeroConnections
      ensures r.Ok? ==> fresh(r.value) && r.value.Record() == NodeRecord(id, connCount, [], queueDelay)
    {
      var n := new NtwkNode(id, connCount, queueDelay);
      var createNodeStatus := Okay;
      if connCount == 0 {
        createNodeStatus := HasZeroConnections;
      }
      match createNodeStatus {
        case Okay => r := Ok(n);
        case _ => r := Err(createNodeStatus);
      }
    }
  }

  /** `Ntwk`: the node list, in the order the nodes were declared. */
  class Ntwk {
    var nodeList: seq<NtwkNode>

    constructor ()
      ensures nodeList == []
    {
      nodeList := [];
    }

    /** The node objects are distinct and hold the records `recs`, in order. */
    ghost predicate Models(recs: seq<NodeRecord>)
      reads this, nodeList
    {
      && |recs| == |nodeList|
      && (forall i, j :: 0 <= i < j < |nodeList| ==> nodeList[i] != nodeList[j])
      && (forall i :: 0 <= i < |nodeList| ==> nodeList[i].Record() == recs[i])
    }
  }
}
