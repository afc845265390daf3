/** Absolute canvas X of a node: its own X plus the absolute X of its parent,
    found by walking `parentId` links (`getAbsoluteX`). The source recurses
    with no guard, so a cyclic parent chain never returns there; here the
    walk remembers the nodes it has visited and answers `None` when it comes
    back to one, which is exactly when the source would recurse forever. */
module ParentWalk {
  import opened Wrappers
  import opened StoryTypes

  /** `nodes.find(n => n.id === id)`, as an index: the first node with that id. */
  function FindIndex(nodes: seq<CanvasNode>, id: string): (r: Option<nat>)
    ensures r.Some? ==> r.value < |nodes| && nodes[r.value].id == id
    ensures r.Some? ==> forall j :: 0 <= j < r.value ==> nodes[j].id != id
    ensures r.None? ==> forall j :: 0 <= j < |nodes| ==> nodes[j].id != id
  {
    if nodes == [] then None
    else if nodes[0].id == id then Some(0)
    else match FindIndex(nodes[1..], id)
      case None => None
      case Some(i) => Some(i + 1)
  }

  /** The positions 0 .. n - 1. */
  function Indices(n: nat): (r: set<int>)
    ensures forall k :: k in r <==> 0 <= k < n
  {
    if n == 0 then {} else Indices(n - 1) + {n - 1}
  }

  /** The walk from `id`, having already passed through the nodes at `visited`. */
  function AbsX(id: string, nodes: seq<CanvasNode>, visited: set<int>): Option<real>
    decreases Indices(|nodes|) - visited
  {
    match FindIndex(nodes, id)
    case None => Some(0.0)
    case Some(i) =>
      if i in visited then None
      else if HasParent(nodes[i]) then
        match AbsX(nodes[i].parentId.value, nodes, visited + {i})
        case None => None
        case Some(p) => Some(nodes[i].position.x + p)
      else Some(nodes[i].position.x)
  }

  /** `getAbsoluteX(id, nodes)`; `None` when the parent chain is cyclic. */
  function GetAbsoluteX(id: string, nodes: seq<CanvasNode>): (r: Option<real>)
    ensures FindIndex(nodes, id).None? ==> r == Some(0.0)
    ensures FindIndex(nodes, id).Some? && !HasParent(nodes[FindIndex(nodes, id).value]) ==>
              r == Some(nodes[FindIndex(nodes, id).value].position.x)
  {
    AbsX(id, nodes, {})
  }

  /** The walk from `id` terminates: following parents never revisits a node. */
  predicate Resolves(id: string, nodes: seq<CanvasNode>)
  {
    GetAbsoluteX(id, nodes).Some?
  }

  function AbsoluteX(id: string, nodes: seq<CanvasNode>): real
    requires Resolves(id, nodes)
  {
    GetAbsoluteX(id, nodes).value
  }

  /** Starting the walk with fewer visited nodes cannot make it fail or change its value. */
  lemma {:induction false} VisitedSubset(id: string, nodes: seq<CanvasNode>, more: set<int>, fewer: set<int>)
    requires fewer <= more
    requires AbsX(id, nodes, more).Some?
    ensures AbsX(id, nodes, fewer) == AbsX(id, nodes, more)
    decreases Indices(|nodes|) - more
  {
    match FindIndex(nodes, id)
    case None =>
    case Some(i) =>
      if HasParent(nodes[i]) {
        VisitedSubset(nodes[i].parentId.value, nodes, more + {i}, fewer + {i});
      }
  }

  /** A child's absolute X is its own X plus its parent's absolute X, and the
      parent's walk terminates whenever the child's does. */
  lemma ChildSum(id: string, nodes: seq<CanvasNode>)
    requires Resolves(id, nodes)
    requires FindIndex(nodes, id).Some? && HasParent(nodes[FindIndex(nodes, id).value])
    ensures Resolves(nodes[FindIndex(nodes, id).value].parentId.value, nodes)
    ensures AbsoluteX(id, nodes) ==
              nodes[FindIndex(nodes, id).value].position.x +
              AbsoluteX(nodes[FindIndex(nodes, id).value].parentId.value, nodes)
  {
    var i := FindIndex(nodes, id).value;
    assert {} + {i} == {i};
    assert AbsX(nodes[i].parentId.value, nodes, {i}).Some?;
    VisitedSubset(nodes[i].parentId.value, nodes, {i}, {});
  }

  /** A chain of node indices, each the parent of the one before, ending at
      a node with no parent or with a parent id that names no node. */
  predicate ParentChain(nodes: seq<CanvasNode>, chain: seq<nat>)
    decreases |chain|
  {
    && |chain| >= 1
    && chain[0] < |nodes|
    && FindIndex(nodes, nodes[chain[0]].id) == Some(chain[0])
    && if |chain| == 1 then
         HasParent(nodes[chain[0]]) ==> FindIndex(nodes, nodes[chain[0]].parentId.value).None?
       else
         && HasParent(nodes[chain[0]])
         && FindIndex(nodes, nodes[chain[0]].parentId.value) == Some(chain[1])
         && ParentChain(nodes, chain[1..])
  }

  lemma {:induction false} ChainInRange(nodes: seq<CanvasNode>, chain: seq<nat>)
    requires ParentChain(nodes, chain)
    ensures forall j :: 0 <= j < |chain| ==> chain[j] < |nodes|
    decreases |chain|
  {
    if |chain| > 1 {
      ChainInRange(nodes, chain[1..]);
      forall j | 1 <= j < |chain| ensures chain[j] < |nodes| {
        assert chain[j] == chain[1..][j - 1];
      }
    }
  }

  function SumX(nodes: seq<CanvasNode>, chain: seq<nat>): real
    requires forall j :: 0 <= j < |chain| ==> chain[j] < |nodes|
  {
    if chain == [] then 0.0 else nodes[chain[0]].position.x + SumX(nodes, chain[1..])
  }

  /** No node appears twice in the chain: the parent links are acyclic along it. */
  predicate Distinct(chain: seq<nat>)
  {
    forall a, b :: 0 <= a < b < |chain| ==> chain[a] != chain[b]
  }

  /** The walk along an acyclic chain, having passed only nodes outside the
      chain, adds up the X of every node of the chain. */
  lemma {:induction false} ChainWalk(nodes: seq<CanvasNode>, chain: seq<nat>, visited: set<int>)
    requires ParentChain(nodes, chain) && Distinct(chain)
    requires forall j :: 0 <= j < |chain| ==> chain[j] !in visited
    ensures (forall j :: 0 <= j < |chain| ==> chain[j] < |nodes|) && AbsX(nodes[chain[0]].id, nodes, visited) == Some(SumX(nodes, chain))
    decreases |chain|
  {
    ChainInRange(nodes, chain);
    var i := chain[0];
    assert i !in visited;
    if |chain| == 1 {
      assert chain[1..] == [];
    } else {
      var rest := chain[1..];
      assert Distinct(rest) by {
        forall a, b | 0 <= a < b < |rest| ensures rest[a] != rest[b] {
          assert rest[a] == chain[a + 1] && rest[b] == chain[b + 1];
        }
      }
      forall j | 0 <= j < |rest| ensures rest[j] !in visited + {i} {
        assert rest[j] == chain[j + 1];
      }
      ChainWalk(nodes, rest, visited + {i});
      assert nodes[rest[0]].id == nodes[i].parentId.value;
    }
  }

  /** Nested placement: along an acyclic parent chain the walk terminates,
      and the absolute X of a node is the sum of the X of the node and of
      every ancestor; a dangling parent id at the end contributes 0. */
  lemma AncestorSum(nodes: seq<CanvasNode>, chain: seq<nat>)
    requires ParentChain(nodes, chain) && Distinct(chain)
    ensures Resolves(nodes[chain[0]].id, nodes)
    ensures (forall j :: 0 <= j < |chain| ==> chain[j] < |nodes|) && AbsoluteX(nodes[chain[0]].id, nodes) == SumX(nodes, chain)
  {
    ChainWalk(nodes, chain, {});
  }

  /** A node that names itself as parent never resolves (the source overflows its stack). */
  lemma SelfParentNeverResolves(nodes: seq<CanvasNode>, i: nat)
    requires i < |nodes| && FindIndex(nodes, nodes[i].id) == Some(i)
    requires nodes[i].parentId == Some(nodes[i].id) && nodes[i].id != ""
    ensures !Resolves(nodes[i].id, nodes)
  {
    assert {} + {i} == {i};
    assert AbsX(nodes[i].id, nodes, {i}) == None;
  }

  /** Nesting one and two levels deep: a root scene A at x = 0, a spine node B
      at x = 50 inside it, and a satellite C at x = 25 inside B; B lands at 50
      and C at 75, whatever the order of the list. */
  lemma NestedExample()
    ensures var a := CanvasNode("A", SceneNode, Position(0.0, 0.0), None, map[]);
            var b := CanvasNode("B", SpineNode, Position(50.0, 200.0), Some("A"), map[]);
            var c := CanvasNode("C", SatelliteNode, Position(25.0, 0.0), Some("B"), map[]);
            GetAbsoluteX("B", [a, b, c]) == Some(50.0) && GetAbsoluteX("C", [c, b, a]) == Some(75.0)
  {
    var a := CanvasNode("A", SceneNode, Position(0.0, 0.0), None, map[]);
    var b := CanvasNode("B", SpineNode, Position(50.0, 200.0), Some("A"), map[]);
    var c := CanvasNode("C", SatelliteNode, Position(25.0, 0.0), Some("B"), map[]);
    var abc, cba := [a, b, c], [c, b, a];
    assert FindIndex(abc, "B") == Some(1);
    assert FindIndex(abc, "A") == Some(0);
    assert AbsX("A", abc, {1}) == Some(0.0);
    assert {} + {1} == {1};
    assert FindIndex(cba, "C") == Some(0);
    assert FindIndex(cba, "B") == Some(1);
    assert FindIndex(cba, "A") == Some(2);
    assert {} + {0} == {0};
    assert {0} + {1} == {0, 1};
    assert AbsX("A", cba, {0, 1}) == Some(0.0);
    assert AbsX("B", cba, {0}) == Some(50.0);
  }
}
