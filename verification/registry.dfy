/** The table of connected nodes. Each method is one critical section under the registry's mutex. */
module Registries {
  import opened Options

  /** A node is known by its socket number. */
  type NodeId = int

  /** Times are counts of nanoseconds on the monotonic clock. */
  datatype NodeInfo = NodeInfo(ip: string, ramBytes: nat, threads: nat, lastSeen: nat, alive: bool)

  type Nodes = map<NodeId, NodeInfo>

  const DEFAULT_MAX_NODES := 8

  function Died(info: NodeInfo): NodeInfo {
    info.(alive := false)
  }

  /** The entry of id, if there is one, replaced by fn of it; nothing else changes. */
  function Updated(nodes: Nodes, id: NodeId, fn: NodeInfo -> NodeInfo): (r: Nodes)
    ensures r.Keys == nodes.Keys
    ensures forall k :: k in nodes && k != id ==> r[k] == nodes[k]
  {
    if id in nodes then nodes[id := fn(nodes[id])] else nodes
  }

  lemma SomeMember(ids: set<NodeId>)
    ensures ids == {} || exists id :: id in ids
  {
    if forall id :: id !in ids {
      assert ids == {};
    }
  }

  ghost predicate Listed(entries: seq<(NodeId, NodeInfo)>, id: NodeId) {
    exists i :: 0 <= i < |entries| && entries[i].0 == id
  }

  lemma {:induction false} ListedTail(entries: seq<(NodeId, NodeInfo)>, i: nat, id: NodeId)
    requires i < |entries|
    requires forall j, k :: 0 <= j < k < |entries| ==> entries[j].0 != entries[k].0
    ensures Listed(entries[i + 1..], id) <==> Listed(entries[i..], id) && id != entries[i].0
  {
    var all, rest := entries[i..], entries[i + 1..];
    if Listed(rest, id) {
      var k :| 0 <= k < |rest| && rest[k].0 == id;
      assert all[k + 1] == rest[k];
      assert entries[i].0 != entries[i + 1 + k].0;
    }
    if Listed(all, id) && id != entries[i].0 {
      var k :| 0 <= k < |all| && all[k].0 == id;
      assert rest[k - 1] == all[k];
    }
  }

  class ConnectionRegistry {
    var nodes: Nodes
    var maxNodes: nat

    constructor ()
      ensures nodes == map[] && maxNodes == 8
    {
      nodes, maxNodes := map[], DEFAULT_MAX_NODES;
    }

    /** A full registry refuses even a node that is already in it. */
    method Insert(id: NodeId, info: NodeInfo) returns (ok: bool)
      modifies this`nodes
      ensures ok <==> |old(nodes)| < maxNodes
      ensures nodes == if ok then old(nodes)[id := info] else old(nodes)
    {
      if |nodes| >= maxNodes {
        return false;
      }
      nodes := nodes[id := info];
      ok := true;
    }

    method Erase(id: NodeId)
      modifies this`nodes
      ensures nodes == old(nodes) - {id}
    {
      nodes := nodes - {id};
    }

    method MarkDead(id: NodeId)
      modifies this`nodes
      ensures nodes == Updated(old(nodes), id, Died)
    {
      if id in nodes {
        nodes := nodes[id := nodes[id].(alive := false)];
      }
    }

    method Update(id: NodeId, fn: NodeInfo -> NodeInfo)
      modifies this`nodes
      ensures nodes == Updated(old(nodes), id, fn)
    {
      if id in nodes {
        nodes := nodes[id := fn(nodes[id])];
      }
    }

    method Get(id: NodeId) returns (r: Option<NodeInfo>)
      ensures r.Some? <==> id in nodes
      ensures r.Some? ==> r.value == nodes[id]
    {
      r := if id in nodes then Some(nodes[id]) else None;
    }

    /** Every entry exactly once, in no particular order. */
    method Snapshot() returns (out: seq<(NodeId, NodeInfo)>)
      ensures |out| == |nodes|
      ensures forall i :: 0 <= i < |out| ==> out[i].0 in nodes && out[i].1 == nodes[out[i].0]
      ensures forall i, j :: 0 <= i < j < |out| ==> out[i].0 != out[j].0
      ensures forall id :: id in nodes ==> Listed(out, id)
    {
      out := [];
      var left := nodes.Keys;
      while left != {}
        invariant left <= nodes.Keys && |out| + |left| == |nodes.Keys|
        invariant forall i :: 0 <= i < |out| ==> out[i].0 in nodes && out[i].0 !in left && out[i].1 == nodes[out[i].0]
        invariant forall i, j :: 0 <= i < j < |out| ==> out[i].0 != out[j].0
        invariant forall id :: id in nodes && id !in left ==> Listed(out, id)
        decreases left
      {
        SomeMember(left);
        var id :| id in left;
        ghost var before := out;
        out := out + [(id, nodes[id])];
        left := left - {id};
        forall k | k in nodes && k !in left ensures Listed(out, k) {
          if k == id {
            assert out[|before|].0 == id;
          } else {
            var i :| 0 <= i < |before| && before[i].0 == k;
            assert out[i].0 == k;
          }
        }
      }
    }

    method Size() returns (n: nat)
      ensures n == |nodes|
    {
      n := |nodes|;
    }

    method SetMax(m: nat)
      modifies this`maxNodes
      ensures maxNodes == m
    {
      maxNodes := m;
    }
  }
}
