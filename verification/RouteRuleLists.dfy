/** The linked list of routing rules, which parsing extends at its end. */
module RouteRuleLists {
  import opened ClientConnections

  class RuleNode {
    const rule: Rule
    var next: RuleNode?

    constructor (rule: Rule)
      ensures this.rule == rule && next == null
    {
      this.rule, next := rule, null;
    }
  }

  function NodeAt(nodes: seq<RuleNode>, i: nat): RuleNode? {
    if i < |nodes| then nodes[i] else null
  }

  /** The list that starts at head is exactly these nodes, each linked to the one after it. */
  ghost predicate IsList(head: RuleNode?, nodes: seq<RuleNode>)
    reads nodes
  {
    head == NodeAt(nodes, 0) && forall i :: 0 <= i < |nodes| ==> nodes[i].next == NodeAt(nodes, i + 1)
  }

  ghost function Rules(nodes: seq<RuleNode>): seq<Rule> {
    if nodes == [] then [] else Rules(nodes[..|nodes| - 1]) + [nodes[|nodes| - 1].rule]
  }

  /** A list that is properly ended visits no node twice. */
  lemma {:induction false} ListIsAcyclic(head: RuleNode?, nodes: seq<RuleNode>, i: nat, j: nat)
    requires IsList(head, nodes) && i < j < |nodes|
    ensures nodes[i] != nodes[j]
    decreases |nodes| - j
  {
    if nodes[i] == nodes[j] {
      assert NodeAt(nodes, i + 1) == NodeAt(nodes, j + 1);
      if j + 1 < |nodes| {
        ListIsAcyclic(head, nodes, i + 1, j + 1);
      }
    }
  }

  /** insert_route_rule: walks to the end and links the new rule there; no other link changes. */
  method InsertRouteRule(head: RuleNode?, route: RuleNode, ghost nodes: seq<RuleNode>) returns (newHead: RuleNode)
    requires IsList(head, nodes) && route !in nodes && route.next == null
    modifies nodes, route
    ensures IsList(newHead, nodes + [route]) && Rules(nodes + [route]) == Rules(nodes) + [route.rule]
    ensures head != null ==> newHead == head
  {
    assert (nodes + [route])[..|nodes|] == nodes;
    if head == null {
      return route;
    }
    var tmp: RuleNode := head;
    ghost var i := 0;
    while tmp.next != null
      invariant 0 <= i < |nodes| && tmp == nodes[i]
      decreases |nodes| - i
    {
      tmp := tmp.next;
      i := i + 1;
    }
    assert i == |nodes| - 1;
    forall j | 0 <= j < i ensures nodes[j] != tmp {
      ListIsAcyclic(head, nodes, j, i);
    }
    tmp.next := route;
    route.next := null;
    newHead := head;
  }
}
