/** The rectangular-cavity pre-processing script: the edge registry
    `edge_key_map` built from gmsh's edge enumeration, and the per-element
    connectivity records of the tetrahedra of every material group
    (`material_dim3`) and of the triangles of every boundary group
    (`boundary_dim2`), all resolved against that one registry. */
module RectangularCavity {
  import opened Outcomes
  import opened Sorting

  /** A node pair used as a dictionary key. */
  type EdgeKey = (int, int)

  type EdgeKeyMap = map<EdgeKey, int>

  // ---------------------------------------------------------------------------
  // The edge registry
  // ---------------------------------------------------------------------------

  /** `tuple(sorted([a, b]))`: the ascending form of an unordered node pair. */
  function Canonical(a: int, b: int): EdgeKey {
    if a <= b then (a, b) else (b, a)
  }

  /** `Canonical` is what `sorted` makes of a two-element list: the smaller
      node first, and the same two nodes. */
  lemma CanonicalIsSorted(a: int, b: int)
    ensures Sort([a, b]) == [Canonical(a, b).0, Canonical(a, b).1]
    ensures Canonical(a, b).0 <= Canonical(a, b).1
    ensures Canonical(a, b) == Canonical(b, a)
  {
    var s := Sort([a, b]);
    SortSpec([a, b]);
    assert multiset(s) == multiset{a, b};
    assert s == [s[0], s[1]];
    assert s[0] in multiset(s) && s[1] in multiset(s);
  }

  /** The key the comprehension builds from pair position `i` of the flat
      `edgeNodes` array. */
  function PairKey(edgeNodes: seq<int>, i: nat): EdgeKey
    requires 2 * i + 1 < |edgeNodes|
  {
    Canonical(edgeNodes[2 * i], edgeNodes[2 * i + 1])
  }

  /** The registry after the first `n` iterations of the comprehension: key
      from pair position `i`, value the `i`-th entry of the sorted tags, a
      later key overwriting an equal earlier one. */
  function KeyMapUpTo(sortedTags: seq<int>, edgeNodes: seq<int>, n: nat): map<EdgeKey, int>
    requires n <= |sortedTags| && 2 * n <= |edgeNodes|
  {
    if n == 0 then map[]
    else KeyMapUpTo(sortedTags, edgeNodes, n - 1)[PairKey(edgeNodes, n - 1) := sortedTags[n - 1]]
  }

  /** `{tuple(sorted([edgeNodes[2*i], edgeNodes[2*i+1]])): tag
         for i, tag in enumerate(sorted(edgeTags))}`;
      an `edgeNodes` shorter than two entries per tag raises `IndexError`. */
  function BuildEdgeKeyMap(edgeTags: seq<int>, edgeNodes: seq<int>): (r: Result<EdgeKeyMap>)
    ensures r.Ok? <==> 2 * |edgeTags| <= |edgeNodes|
    ensures r.Err? ==> r.error == IndexError
  {
    if 2 * |edgeTags| <= |edgeNodes| then Ok(KeyMapUpTo(Sort(edgeTags), edgeNodes, |edgeTags|))
    else Err(IndexError)
  }

  /** No two of the first `n` pair positions give the same unordered pair. */
  ghost predicate DistinctPairs(edgeNodes: seq<int>, n: nat)
    requires 2 * n <= |edgeNodes|
  {
    forall i, j :: 0 <= i < j < n ==> PairKey(edgeNodes, i) != PairKey(edgeNodes, j)
  }

  /** Position `i` is the last of the first `n` positions giving its pair. */
  ghost predicate IsLastPosition(edgeNodes: seq<int>, n: nat, i: nat)
    requires 2 * n <= |edgeNodes| && i < n
  {
    forall j :: i < j < n ==> PairKey(edgeNodes, j) != PairKey(edgeNodes, i)
  }

  /** Every key is canonical and comes from some pair position. */
  lemma {:induction false} KeyMapKeys(sortedTags: seq<int>, edgeNodes: seq<int>, n: nat)
    requires n <= |sortedTags| && 2 * n <= |edgeNodes|
    ensures forall k :: k in KeyMapUpTo(sortedTags, edgeNodes, n) <==>
      exists i :: 0 <= i < n && PairKey(edgeNodes, i) == k
    ensures forall k :: k in KeyMapUpTo(sortedTags, edgeNodes, n) ==> k.0 <= k.1
  {
    if n > 0 {
      KeyMapKeys(sortedTags, edgeNodes, n - 1);
    }
  }

  /** The value stored under the key of position `i` is the `i`-th sorted tag
      unless a later position gives the same key. */
  lemma {:induction false} KeyMapLastWins(sortedTags: seq<int>, edgeNodes: seq<int>, n: nat, i: nat)
    requires n <= |sortedTags| && 2 * n <= |edgeNodes|
    requires i < n
    requires IsLastPosition(edgeNodes, n, i)
    ensures PairKey(edgeNodes, i) in KeyMapUpTo(sortedTags, edgeNodes, n)
    ensures KeyMapUpTo(sortedTags, edgeNodes, n)[PairKey(edgeNodes, i)] == sortedTags[i]
  {
    if i < n - 1 {
      KeyMapLastWins(sortedTags, edgeNodes, n - 1, i);
    }
  }

  /** Every stored value is one of the first `n` sorted tags. */
  lemma {:induction false} KeyMapValues(sortedTags: seq<int>, edgeNodes: seq<int>, n: nat)
    requires n <= |sortedTags| && 2 * n <= |edgeNodes|
    ensures forall k :: k in KeyMapUpTo(sortedTags, edgeNodes, n) ==>
      KeyMapUpTo(sortedTags, edgeNodes, n)[k] in sortedTags[..n]
  {
    if n > 0 {
      KeyMapValues(sortedTags, edgeNodes, n - 1);
      assert sortedTags[..n - 1] <= sortedTags[..n];
    }
  }

  /** The registry has at most `n` entries, and exactly `n` precisely when
      the `n` node pairs are distinct as unordered pairs. */
  lemma {:induction false} KeyMapSize(sortedTags: seq<int>, edgeNodes: seq<int>, n: nat)
    requires n <= |sortedTags| && 2 * n <= |edgeNodes|
    ensures |KeyMapUpTo(sortedTags, edgeNodes, n)| <= n
    ensures |KeyMapUpTo(sortedTags, edgeNodes, n)| == n <==> DistinctPairs(edgeNodes, n)
  {
    if n > 0 {
      var prev := KeyMapUpTo(sortedTags, edgeNodes, n - 1);
      var key := PairKey(edgeNodes, n - 1);
      KeyMapSize(sortedTags, edgeNodes, n - 1);
      KeyMapKeys(sortedTags, edgeNodes, n - 1);
      DistinctPairsStep(edgeNodes, n);
      if key !in prev {
        assert |prev[key := sortedTags[n - 1]]| == |prev| + 1;
      }
    }
  }

  /** The first `n` pairs are distinct exactly when the first `n - 1` are and
      the last one repeats none of them. */
  lemma DistinctPairsStep(edgeNodes: seq<int>, n: nat)
    requires 0 < n && 2 * n <= |edgeNodes|
    ensures DistinctPairs(edgeNodes, n) <==>
      DistinctPairs(edgeNodes, n - 1) && forall i :: 0 <= i < n - 1 ==> PairKey(edgeNodes, i) != PairKey(edgeNodes, n - 1)
  {
  }

  /** The registry's promises for the script's inputs: canonical keys from
      pair positions, the last position writing a key wins with its sorted
      tag, values are gmsh edge tags, and the size is bounded by the number
      of tags and equal to it exactly when the pairs are distinct. */
  lemma EdgeKeyMapSpec(edgeTags: seq<int>, edgeNodes: seq<int>)
    requires 2 * |edgeTags| <= |edgeNodes|
    ensures var m := BuildEdgeKeyMap(edgeTags, edgeNodes).value;
      && (forall k :: k in m ==> k.0 <= k.1 && exists i :: 0 <= i < |edgeTags| && PairKey(edgeNodes, i) == k)
      && (forall i :: 0 <= i < |edgeTags| && IsLastPosition(edgeNodes, |edgeTags|, i) ==>
            PairKey(edgeNodes, i) in m && m[PairKey(edgeNodes, i)] == Sort(edgeTags)[i])
      && (forall k :: k in m ==> m[k] in edgeTags)
      && |m| <= |edgeTags|
      && (|m| == |edgeTags| <==> DistinctPairs(edgeNodes, |edgeTags|))
  {
    var sorted := Sort(edgeTags);
    SortSpec(edgeTags);
    var n := |edgeTags|;
    var m := KeyMapUpTo(sorted, edgeNodes, n);
    assert BuildEdgeKeyMap(edgeTags, edgeNodes).value == m;
    KeyMapKeys(sorted, edgeNodes, n);
    KeyMapSize(sorted, edgeNodes, n);
    KeyMapValues(sorted, edgeNodes, n);
    assert sorted[..n] == sorted;
    forall k | k in m ensures m[k] in edgeTags {
      assert m[k] in multiset(sorted);
    }
    forall i | 0 <= i < n && IsLastPosition(edgeNodes, n, i)
      ensures PairKey(edgeNodes, i) in m && m[PairKey(edgeNodes, i)] == sorted[i]
    {
      KeyMapLastWins(sorted, edgeNodes, n, i);
    }
  }

  // ---------------------------------------------------------------------------
  // Element connectivity records
  // ---------------------------------------------------------------------------

  /** The two element kinds the script indexes: the tetrahedra of the volume
      and the triangles of its boundary. */
  datatype Shape = Tetrahedron | Triangle

  function NodesPerElement(shape: Shape): nat {
    match shape
    case Tetrahedron => 4
    case Triangle => 3
  }

  /** The fixed local edge enumeration over the sorted nodes:
      (0,1)(0,2)(0,3)(1,2)(1,3)(2,3) for a tetrahedron, (0,1)(0,2)(1,2) for a
      triangle. */
  function LocalEdges(shape: Shape): (r: seq<(nat, nat)>)
    ensures forall k :: 0 <= k < |r| ==> r[k].0 < r[k].1 < NodesPerElement(shape)
  {
    match shape
    case Tetrahedron => [(0, 1), (0, 2), (0, 3), (1, 2), (1, 3), (2, 3)]
    case Triangle => [(0, 1), (0, 2), (1, 2)]
  }

  /** One value of `material_dim3` or `boundary_dim2`. */
  datatype Connectivity = Connectivity(nodeConn: seq<int>, edgeConn: seq<int>, bcTag: int)

  /** `nodeTags[n*i : n*(i+1)]` for `n` nodes per element, clamped at the end
      of the array as Python slicing is. */
  function Slice(nodeTags: seq<int>, shape: Shape, i: nat): (r: seq<int>)
    ensures |r| <= NodesPerElement(shape)
    ensures NodesPerElement(shape) * (i + 1) <= |nodeTags| ==>
      r == nodeTags[NodesPerElement(shape) * i..NodesPerElement(shape) * (i + 1)]
  {
    var lo := if NodesPerElement(shape) * i <= |nodeTags| then NodesPerElement(shape) * i else |nodeTags|;
    var hi := if NodesPerElement(shape) * (i + 1) <= |nodeTags| then NodesPerElement(shape) * (i + 1) else |nodeTags|;
    nodeTags[lo..hi]
  }

  /** The dictionary key `(node_conn[p], node_conn[q])` of local pair `(p, q)`. */
  function LocalKey(nodeConn: seq<int>, pq: (nat, nat)): EdgeKey
    requires pq.0 < |nodeConn| && pq.1 < |nodeConn|
  {
    (nodeConn[pq.0], nodeConn[pq.1])
  }

  /** The lookup of local pair `pq` succeeds: both indices exist and the pair
      is registered. */
  predicate Resolves(em: EdgeKeyMap, nodeConn: seq<int>, pq: (nat, nat)) {
    pq.0 < |nodeConn| && pq.1 < |nodeConn| && LocalKey(nodeConn, pq) in em
  }

  /** The exception a failing lookup raises. */
  function LookupError(nodeConn: seq<int>, pq: (nat, nat)): PyError {
    if pq.0 < |nodeConn| && pq.1 < |nodeConn| then KeyError(LocalKey(nodeConn, pq)) else IndexError
  }

  /** The `edge_conn` list literal: each local pair looked up in the registry,
      left to right; the first failing lookup raises. */
  function LookupEdges(em: EdgeKeyMap, nodeConn: seq<int>, pairs: seq<(nat, nat)>): Result<seq<int>> {
    if pairs == [] then Ok([])
    else if !Resolves(em, nodeConn, pairs[0]) then Err(LookupError(nodeConn, pairs[0]))
    else
      match LookupEdges(em, nodeConn, pairs[1..])
      case Err(e) => Err(e)
      case Ok(rest) => Ok([em[LocalKey(nodeConn, pairs[0])]] + rest)
  }

  /** The lookups succeed exactly when every pair resolves, and then yield the
      registered id of each pair in order; otherwise they raise the exception
      of the first pair that does not resolve. */
  lemma {:induction false} LookupEdgesSpec(em: EdgeKeyMap, nodeConn: seq<int>, pairs: seq<(nat, nat)>)
    ensures var r := LookupEdges(em, nodeConn, pairs);
      && (r.Ok? <==> forall k :: 0 <= k < |pairs| ==> Resolves(em, nodeConn, pairs[k]))
      && (r.Ok? ==> |r.value| == |pairs|)
      && (r.Ok? ==> forall k :: 0 <= k < |pairs| ==> r.value[k] == em[LocalKey(nodeConn, pairs[k])])
      && (r.Err? ==>
           exists k ::
             && 0 <= k < |pairs|
             && !Resolves(em, nodeConn, pairs[k])
             && (forall j :: 0 <= j < k ==> Resolves(em, nodeConn, pairs[j]))
             && r.error == LookupError(nodeConn, pairs[k]))
  {
    if pairs != [] && Resolves(em, nodeConn, pairs[0]) {
      var tail := pairs[1..];
      LookupEdgesSpec(em, nodeConn, tail);
      assert forall k :: 1 <= k < |pairs| ==> pairs[k] == tail[k - 1];
      var r := LookupEdges(em, nodeConn, tail);
      if r.Err? {
        var k :| 0 <= k < |tail| && !Resolves(em, nodeConn, tail[k]) &&
          (forall j :: 0 <= j < k ==> Resolves(em, nodeConn, tail[j])) &&
          r.error == LookupError(nodeConn, tail[k]);
        assert !Resolves(em, nodeConn, pairs[k + 1]);
      }
    }
  }

  /** The record of one element: its sorted nodes, the edge ids of its local
      edges and the tag of the group being iterated. */
  function MakeRecord(em: EdgeKeyMap, shape: Shape, bcTag: int, nodes: seq<int>): Result<Connectivity> {
    var nodeConn := Sort(nodes);
    match LookupEdges(em, nodeConn, LocalEdges(shape))
    case Ok(edgeConn) => Ok(Connectivity(nodeConn, edgeConn, bcTag))
    case Err(e) => Err(e)
  }

  /** A record is built exactly when the element has all its nodes and every
      local edge of its sorted nodes is registered; it then holds the
      ascending permutation of the nodes, the registered id of each local
      edge in order, and the group's tag. */
  lemma MakeRecordSpec(em: EdgeKeyMap, shape: Shape, bcTag: int, nodes: seq<int>)
    ensures var r := MakeRecord(em, shape, bcTag, nodes);
      && (r.Ok? <==> (|nodes| >= NodesPerElement(shape) &&
           forall k :: 0 <= k < |LocalEdges(shape)| ==> LocalKey(Sort(nodes), LocalEdges(shape)[k]) in em))
      && (r.Ok? ==>
           && r.value.nodeConn == Sort(nodes)
           && Ascending(r.value.nodeConn)
           && multiset(r.value.nodeConn) == multiset(nodes)
           && |r.value.edgeConn| == |LocalEdges(shape)|
           && (forall k :: 0 <= k < |LocalEdges(shape)| ==>
                 r.value.edgeConn[k] == em[LocalKey(r.value.nodeConn, LocalEdges(shape)[k])])
           && r.value.bcTag == bcTag)
  {
    var nodeConn := Sort(nodes);
    SortSpec(nodes);
    var edges := LookupEdges(em, nodeConn, LocalEdges(shape));
    LookupEdgesSpec(em, nodeConn, LocalEdges(shape));
    if edges.Ok? {
      if shape == Tetrahedron {
        assert Resolves(em, nodeConn, LocalEdges(shape)[2]);
      } else {
        assert Resolves(em, nodeConn, LocalEdges(shape)[1]);
      }
    }
  }

  /** What a well-formed record looks like: as many ascending nodes as the
      shape has, and one registered edge id per local edge, looked up under
      its canonical key. */
  ghost predicate WellFormed(em: EdgeKeyMap, shape: Shape, r: Connectivity) {
    && |r.nodeConn| == NodesPerElement(shape)
    && Ascending(r.nodeConn)
    && |r.edgeConn| == |LocalEdges(shape)|
    && forall k :: 0 <= k < |LocalEdges(shape)| ==>
         LocalKey(r.nodeConn, LocalEdges(shape)[k]) in em &&
         r.edgeConn[k] == em[LocalKey(r.nodeConn, LocalEdges(shape)[k])]
  }

  /** The keys a record looks up are canonical (ascending) pairs, so sorting
      `node_conn` first is what makes them match the registry. */
  lemma LocalKeysCanonical(em: EdgeKeyMap, shape: Shape, r: Connectivity, k: nat)
    requires WellFormed(em, shape, r)
    requires k < |LocalEdges(shape)|
    ensures LocalKey(r.nodeConn, LocalEdges(shape)[k]).0 <= LocalKey(r.nodeConn, LocalEdges(shape)[k]).1
  {
  }

  /** Every edge id of a well-formed record is a value of the registry. */
  lemma EdgeIdsRegistered(em: EdgeKeyMap, shape: Shape, r: Connectivity)
    requires WellFormed(em, shape, r)
    ensures forall id :: id in r.edgeConn ==> id in em.Values
  {
    forall id | id in r.edgeConn ensures id in em.Values {
      var k :| 0 <= k < |r.edgeConn| && r.edgeConn[k] == id;
      assert LocalKey(r.nodeConn, LocalEdges(shape)[k]) in em;
    }
  }

  // ---------------------------------------------------------------------------
  // The material and boundary passes
  // ---------------------------------------------------------------------------

  /** `material_dim3` or `boundary_dim2`: element tag to record. */
  type Table = map<int, Connectivity>

  /** What `gmsh.model.mesh.getElements(dim, tag)` returns for one entity:
      one block per element type, of which the script reads only the first
      (`elemTags[0]`, `nodeTags[0]`). */
  datatype ElementBlock = ElementBlock(elemTags: seq<int>, nodeTags: seq<int>)

  /** One entry of the script's `MATERIAL` or `BOUNDARY` list: its tag and,
      for every entity `getEntitiesForPhysicalGroup` returns, that entity's
      element blocks. */
  datatype PhysicalGroup = PhysicalGroup(tag: int, entities: seq<seq<ElementBlock>>)

  /** The records the elements of a block get, in order: the nodes of
      element `i` are its slice of the flat `nodeTags` array. */
  function BlockRecords(em: EdgeKeyMap, shape: Shape, tag: int, block: ElementBlock): (r: seq<Result<Connectivity>>)
    ensures |r| == |block.elemTags|
  {
    seq(|block.elemTags|, i requires 0 <= i < |block.elemTags| => MakeRecord(em, shape, tag, Slice(block.nodeTags, shape, i)))
  }

  /** The innermost loop after its first `n` turns, continuing table `t0`:
      element `tags[i]` is stored with record `records[i]`, and the first
      record that fails raises. */
  function Fill(tags: seq<int>, records: seq<Result<Connectivity>>, n: nat, t0: Table): Result<Table>
    requires n <= |tags| && n <= |records|
  {
    if n == 0 then Ok(t0)
    else
      match Fill(tags, records, n - 1, t0)
      case Err(e) => Err(e)
      case Ok(t) =>
        match records[n - 1]
        case Err(e) => Err(e)
        case Ok(r) => Ok(t[tags[n - 1] := r])
  }

  /** One turn of the middle loop: `elemTags[0]` raises when the entity has
      no element block. */
  function EntityPass(em: EdgeKeyMap, shape: Shape, tag: int, blocks: seq<ElementBlock>, t0: Table): Result<Table> {
    if blocks == [] then Err(IndexError)
    else Fill(blocks[0].elemTags, BlockRecords(em, shape, tag, blocks[0]), |blocks[0].elemTags|, t0)
  }

  /** The middle loop after its first `n` turns, continuing table `t0`. */
  function GroupPass(em: EdgeKeyMap, shape: Shape, group: PhysicalGroup, n: nat, t0: Table): Result<Table>
    requires n <= |group.entities|
  {
    if n == 0 then Ok(t0)
    else
      match GroupPass(em, shape, group, n - 1, t0)
      case Err(e) => Err(e)
      case Ok(t) => EntityPass(em, shape, group.tag, group.entities[n - 1], t)
  }

  /** The outer loop after its first `n` turns, starting from `{}`. */
  function PassUpTo(em: EdgeKeyMap, shape: Shape, groups: seq<PhysicalGroup>, n: nat): Result<Table>
    requires n <= |groups|
  {
    if n == 0 then Ok(map[])
    else
      match PassUpTo(em, shape, groups, n - 1)
      case Err(e) => Err(e)
      case Ok(t) => GroupPass(em, shape, groups[n - 1], |groups[n - 1].entities|, t)
  }

  /** `material_dim3` (for tetrahedra) or `boundary_dim2` (for triangles). */
  function Pass(em: EdgeKeyMap, shape: Shape, groups: seq<PhysicalGroup>): Result<Table> {
    PassUpTo(em, shape, groups, |groups|)
  }

  // An exception ends the script: once a prefix of a loop fails, the whole
  // loop fails the same way.

  lemma {:induction false} FillErr(tags: seq<int>, records: seq<Result<Connectivity>>, i: nat, n: nat, t0: Table)
    requires i <= n <= |tags| && n <= |records|
    requires Fill(tags, records, i, t0).Err?
    ensures Fill(tags, records, n, t0) == Fill(tags, records, i, t0)
    decreases n
  {
    if i < n {
      FillErr(tags, records, i, n - 1, t0);
    }
  }

  lemma {:induction false} GroupPassErr(em: EdgeKeyMap, shape: Shape, group: PhysicalGroup, j: nat, n: nat, t0: Table)
    requires j <= n <= |group.entities|
    requires GroupPass(em, shape, group, j, t0).Err?
    ensures GroupPass(em, shape, group, n, t0) == GroupPass(em, shape, group, j, t0)
    decreases n
  {
    if j < n {
      GroupPassErr(em, shape, group, j, n - 1, t0);
    }
  }

  lemma {:induction false} PassUpToErr(em: EdgeKeyMap, shape: Shape, groups: seq<PhysicalGroup>, g: nat, n: nat)
    requires g <= n <= |groups|
    requires PassUpTo(em, shape, groups, g).Err?
    ensures PassUpTo(em, shape, groups, n) == PassUpTo(em, shape, groups, g)
    decreases n
  {
    if g < n {
      PassUpToErr(em, shape, groups, g, n - 1);
    }
  }

  // ---------------------------------------------------------------------------
  // What the passes compute
  // ---------------------------------------------------------------------------

  /** The element tags an entity contributes: those of its first block. */
  function EntityTags(blocks: seq<ElementBlock>): seq<int> {
    if blocks == [] then [] else blocks[0].elemTags
  }

  /** The last of the first `n` entities of a group holding element `e`, or -1. */
  function LastEntity(group: PhysicalGroup, n: nat, e: int): (r: int)
    requires n <= |group.entities|
    ensures -1 <= r < n
    ensures r >= 0 ==> e in EntityTags(group.entities[r])
    ensures forall j :: r < j < n ==> e !in EntityTags(group.entities[j])
  {
    if n == 0 then -1
    else if e in EntityTags(group.entities[n - 1]) then n - 1
    else LastEntity(group, n - 1, e)
  }

  /** The last of the first `n` groups holding element `e`, or -1. */
  function LastGroup(groups: seq<PhysicalGroup>, n: nat, e: int): (r: int)
    requires n <= |groups|
    ensures -1 <= r < n
    ensures r >= 0 ==> LastEntity(groups[r], |groups[r].entities|, e) >= 0
    ensures forall g :: r < g < n ==> LastEntity(groups[g], |groups[g].entities|, e) < 0
  {
    if n == 0 then -1
    else if LastEntity(groups[n - 1], |groups[n - 1].entities|, e) >= 0 then n - 1
    else LastGroup(groups, n - 1, e)
  }

  /** An entity's turn of the middle loop raises nothing: it has an element
      block and every element in it gets a record. */
  ghost predicate EntityBuilds(em: EdgeKeyMap, shape: Shape, tag: int, blocks: seq<ElementBlock>) {
    && blocks != []
    && forall i :: 0 <= i < |blocks[0].elemTags| ==> BlockRecords(em, shape, tag, blocks[0])[i].Ok?
  }

  /** `r` is what the entity leaves under `e`: the record of its LAST element
      tagged `e`. */
  ghost predicate BuiltFrom(em: EdgeKeyMap, shape: Shape, tag: int, blocks: seq<ElementBlock>, e: int, r: Connectivity) {
    && e in EntityTags(blocks)
    && BlockRecords(em, shape, tag, blocks[0])[LastIndex(blocks[0].elemTags, e)] == Ok(r)
  }

  /** The innermost loop succeeds exactly when every element gets a record. */
  lemma {:induction false} FillOk(tags: seq<int>, records: seq<Result<Connectivity>>, n: nat, t0: Table)
    requires n <= |tags| && n <= |records|
    ensures Fill(tags, records, n, t0).Ok? <==> forall i :: 0 <= i < n ==> records[i].Ok?
  {
    if n > 0 {
      FillOk(tags, records, n - 1, t0);
    }
  }

  /** When the innermost loop fails, it raises the exception of the first
      element that gets no record. */
  lemma {:induction false} FillError(tags: seq<int>, records: seq<Result<Connectivity>>, n: nat, t0: Table)
    requires n <= |tags| && n <= |records|
    requires Fill(tags, records, n, t0).Err?
    ensures exists i ::
      && 0 <= i < n
      && (forall j :: 0 <= j < i ==> records[j].Ok?)
      && records[i] == Err(Fill(tags, records, n, t0).error)
  {
    assert n > 0;
    var before := Fill(tags, records, n - 1, t0);
    if before.Err? {
      FillError(tags, records, n - 1, t0);
      var i :| 0 <= i < n - 1 && (forall j :: 0 <= j < i ==> records[j].Ok?) && records[i] == Err(before.error);
      assert Fill(tags, records, n, t0) == before;
    } else {
      FillOk(tags, records, n - 1, t0);
      assert records[n - 1] == Err(Fill(tags, records, n, t0).error);
    }
  }

  /** After the innermost loop, the table holds the old entries and one entry
      per element tag; an old entry survives only when its tag does not come
      again, and a repeated tag keeps the record of its last element. */
  lemma {:induction false} FillTable(tags: seq<int>, records: seq<Result<Connectivity>>, n: nat, t0: Table, e: int)
    requires n <= |tags| && n <= |records|
    requires Fill(tags, records, n, t0).Ok?
    ensures var t := Fill(tags, records, n, t0).value;
      && (e in t <==> e in t0 || e in tags[..n])
      && (e !in tags[..n] && e in t0 ==> t[e] == t0[e])
      && (e in tags[..n] ==> records[LastIndex(tags[..n], e)] == Ok(t[e]))
  {
    if n > 0 {
      assert tags[..n][..n - 1] == tags[..n - 1];
      FillTable(tags, records, n - 1, t0, e);
    }
  }

  /** An entity's turn succeeds exactly when it builds, whatever the table. */
  lemma EntityPassOk(em: EdgeKeyMap, shape: Shape, tag: int, blocks: seq<ElementBlock>, t0: Table)
    ensures EntityPass(em, shape, tag, blocks, t0).Ok? <==> EntityBuilds(em, shape, tag, blocks)
  {
    if blocks != [] {
      FillOk(blocks[0].elemTags, BlockRecords(em, shape, tag, blocks[0]), |blocks[0].elemTags|, t0);
    }
  }

  /** A group's loop succeeds exactly when every one of its entities does. */
  lemma {:induction false} GroupPassOutcome(em: EdgeKeyMap, shape: Shape, group: PhysicalGroup, n: nat, t0: Table)
    requires n <= |group.entities|
    ensures GroupPass(em, shape, group, n, t0).Ok? <==>
      forall j :: 0 <= j < n ==> EntityBuilds(em, shape, group.tag, group.entities[j])
  {
    if n > 0 {
      GroupPassOutcome(em, shape, group, n - 1, t0);
      var before := GroupPass(em, shape, group, n - 1, t0);
      if before.Ok? {
        EntityPassOk(em, shape, group.tag, group.entities[n - 1], before.value);
      }
    }
  }

  /** After a group's loop, the table holds the old entries and one entry per
      element of the group; an element the group holds carries what the last
      entity holding it built. */
  lemma {:induction false} GroupPassTable(em: EdgeKeyMap, shape: Shape, group: PhysicalGroup, n: nat, t0: Table, e: int)
    requires n <= |group.entities|
    requires GroupPass(em, shape, group, n, t0).Ok?
    ensures var t := GroupPass(em, shape, group, n, t0).value;
      && (e in t <==> e in t0 || LastEntity(group, n, e) >= 0)
      && (LastEntity(group, n, e) < 0 && e in t0 ==> t[e] == t0[e])
      && (LastEntity(group, n, e) >= 0 ==>
            BuiltFrom(em, shape, group.tag, group.entities[LastEntity(group, n, e)], e, t[e]))
  {
    if n > 0 {
      GroupPassTable(em, shape, group, n - 1, t0, e);
      var t1 := GroupPass(em, shape, group, n - 1, t0).value;
      var blocks := group.entities[n - 1];
      var block := blocks[0];
      assert block.elemTags[..|block.elemTags|] == block.elemTags;
      FillTable(block.elemTags, BlockRecords(em, shape, group.tag, block), |block.elemTags|, t1, e);
    }
  }

  /** A pass succeeds exactly when every entity of every group does. */
  lemma {:induction false} PassUpToOutcome(em: EdgeKeyMap, shape: Shape, groups: seq<PhysicalGroup>, n: nat)
    requires n <= |groups|
    ensures PassUpTo(em, shape, groups, n).Ok? <==>
      forall g, j :: 0 <= g < n && 0 <= j < |groups[g].entities| ==>
        EntityBuilds(em, shape, groups[g].tag, groups[g].entities[j])
  {
    if n > 0 {
      PassUpToOutcome(em, shape, groups, n - 1);
      var before := PassUpTo(em, shape, groups, n - 1);
      if before.Ok? {
        GroupPassOutcome(em, shape, groups[n - 1], |groups[n - 1].entities|, before.value);
      }
    }
  }

  /** After a pass, the table has one entry per element of any group, and it
      carries what the last entity of the last group holding it built. */
  lemma {:induction false} PassUpToTable(em: EdgeKeyMap, shape: Shape, groups: seq<PhysicalGroup>, n: nat, e: int)
    requires n <= |groups|
    requires PassUpTo(em, shape, groups, n).Ok?
    ensures var t := PassUpTo(em, shape, groups, n).value;
      && (e in t <==> LastGroup(groups, n, e) >= 0)
      && (LastGroup(groups, n, e) >= 0 ==>
            var g := LastGroup(groups, n, e);
            BuiltFrom(em, shape, groups[g].tag, groups[g].entities[LastEntity(groups[g], |groups[g].entities|, e)], e, t[e]))
  {
    if n > 0 {
      PassUpToTable(em, shape, groups, n - 1, e);
      var t1 := PassUpTo(em, shape, groups, n - 1).value;
      GroupPassTable(em, shape, groups[n - 1], |groups[n - 1].entities|, t1, e);
    }
  }

  /** `err` is what an entity's turn raises: `IndexError` when it has no
      element block, otherwise the exception of its first element that gets
      no record. */
  ghost predicate EntityRaises(em: EdgeKeyMap, shape: Shape, tag: int, blocks: seq<ElementBlock>, err: PyError) {
    if blocks == [] then err == IndexError
    else
      exists i ::
        && 0 <= i < |blocks[0].elemTags|
        && (forall j :: 0 <= j < i ==> BlockRecords(em, shape, tag, blocks[0])[j].Ok?)
        && BlockRecords(em, shape, tag, blocks[0])[i] == Err(err)
  }

  /** A failing entity raises the exception of its first failing element. */
  lemma EntityPassError(em: EdgeKeyMap, shape: Shape, tag: int, blocks: seq<ElementBlock>, t0: Table)
    requires EntityPass(em, shape, tag, blocks, t0).Err?
    ensures EntityRaises(em, shape, tag, blocks, EntityPass(em, shape, tag, blocks, t0).error)
  {
    if blocks != [] {
      FillError(blocks[0].elemTags, BlockRecords(em, shape, tag, blocks[0]), |blocks[0].elemTags|, t0);
    }
  }

  /** A failing group's loop raises what its first failing entity raises,
      every entity before it having built. */
  lemma {:induction false} GroupPassError(em: EdgeKeyMap, shape: Shape, group: PhysicalGroup, n: nat, t0: Table)
    requires n <= |group.entities|
    requires GroupPass(em, shape, group, n, t0).Err?
    ensures exists j ::
      && 0 <= j < n
      && (forall j' :: 0 <= j' < j ==> EntityBuilds(em, shape, group.tag, group.entities[j']))
      && EntityRaises(em, shape, group.tag, group.entities[j], GroupPass(em, shape, group, n, t0).error)
  {
    if GroupPass(em, shape, group, n - 1, t0).Err? {
      GroupPassError(em, shape, group, n - 1, t0);
      GroupPassErr(em, shape, group, n - 1, n, t0);
    } else {
      GroupPassLastFails(em, shape, group, n, t0);
    }
  }

  /** A group whose first `n - 1` entities pass and whose `n`-th fails
      raises what that entity raises. */
  lemma GroupPassLastFails(em: EdgeKeyMap, shape: Shape, group: PhysicalGroup, n: nat, t0: Table)
    requires 0 < n <= |group.entities|
    requires GroupPass(em, shape, group, n - 1, t0).Ok?
    requires GroupPass(em, shape, group, n, t0).Err?
    ensures forall j' :: 0 <= j' < n - 1 ==> EntityBuilds(em, shape, group.tag, group.entities[j'])
    ensures EntityRaises(em, shape, group.tag, group.entities[n - 1], GroupPass(em, shape, group, n, t0).error)
  {
    var before := GroupPass(em, shape, group, n - 1, t0);
    assert GroupPass(em, shape, group, n, t0) == EntityPass(em, shape, group.tag, group.entities[n - 1], before.value);
    GroupPassOutcome(em, shape, group, n - 1, t0);
    EntityPassError(em, shape, group.tag, group.entities[n - 1], before.value);
  }


  /** A failing pass raises what the first failing entity of its first
      failing group raises, every entity before it having built. */
  lemma {:induction false} PassUpToError(em: EdgeKeyMap, shape: Shape, groups: seq<PhysicalGroup>, n: nat)
    requires n <= |groups|
    requires PassUpTo(em, shape, groups, n).Err?
    ensures exists g, j ::
      && 0 <= g < n
      && 0 <= j < |groups[g].entities|
      && (forall g', j' :: 0 <= g' < g && 0 <= j' < |groups[g'].entities| ==>
            EntityBuilds(em, shape, groups[g'].tag, groups[g'].entities[j']))
      && (forall j' :: 0 <= j' < j ==> EntityBuilds(em, shape, groups[g].tag, groups[g].entities[j']))
      && EntityRaises(em, shape, groups[g].tag, groups[g].entities[j], PassUpTo(em, shape, groups, n).error)
  {
    var g := n - 1;
    if PassUpTo(em, shape, groups, g).Err? {
      PassUpToError(em, shape, groups, g);
      PassUpToErr(em, shape, groups, g, n);
    } else {
      PassUpToLastFails(em, shape, groups, g);
    }
  }

  /** A pass whose first `g` groups pass and whose next one fails raises
      what that group raises. */
  lemma PassUpToLastFails(em: EdgeKeyMap, shape: Shape, groups: seq<PhysicalGroup>, g: nat)
    requires g < |groups|
    requires PassUpTo(em, shape, groups, g).Ok?
    requires PassUpTo(em, shape, groups, g + 1).Err?
    ensures forall g', j' :: 0 <= g' < g && 0 <= j' < |groups[g'].entities| ==>
      EntityBuilds(em, shape, groups[g'].tag, groups[g'].entities[j'])
    ensures exists j ::
      && 0 <= j < |groups[g].entities|
      && (forall j' :: 0 <= j' < j ==> EntityBuilds(em, shape, groups[g].tag, groups[g].entities[j']))
      && EntityRaises(em, shape, groups[g].tag, groups[g].entities[j], PassUpTo(em, shape, groups, g + 1).error)
  {
    var before := PassUpTo(em, shape, groups, g);
    PassUpToOutcome(em, shape, groups, g);
    GroupPassError(em, shape, groups[g], |groups[g].entities|, before.value);
  }

  /** The element's nodes can be indexed: there are enough of them, and every
      local edge of the sorted nodes is in the registry. */
  ghost predicate ElementResolves(em: EdgeKeyMap, shape: Shape, nodes: seq<int>) {
    && |nodes| >= NodesPerElement(shape)
    && forall k :: 0 <= k < |LocalEdges(shape)| ==> LocalKey(Sort(nodes), LocalEdges(shape)[k]) in em
  }

  /** An entity builds exactly when it has an element block and every element
      of that block resolves. */
  lemma EntityBuildsMeaning(em: EdgeKeyMap, shape: Shape, tag: int, blocks: seq<ElementBlock>)
    ensures EntityBuilds(em, shape, tag, blocks) <==>
      && blocks != []
      && forall i :: 0 <= i < |blocks[0].elemTags| ==> ElementResolves(em, shape, Slice(blocks[0].nodeTags, shape, i))
  {
    if blocks != [] {
      var block := blocks[0];
      forall i | 0 <= i < |block.elemTags|
        ensures BlockRecords(em, shape, tag, block)[i].Ok? <==> ElementResolves(em, shape, Slice(block.nodeTags, shape, i))
      {
        MakeRecordSpec(em, shape, tag, Slice(block.nodeTags, shape, i));
      }
    }
  }

  /** A stored record is well formed for the registry, carries the tag of the
      group it was built in, holds the sorted nodes of the element it comes
      from, and refers only to registered edge ids. */
  lemma BuiltFromWellFormed(em: EdgeKeyMap, shape: Shape, tag: int, blocks: seq<ElementBlock>, e: int, r: Connectivity)
    requires BuiltFrom(em, shape, tag, blocks, e, r)
    ensures WellFormed(em, shape, r)
    ensures r.bcTag == tag
    ensures r.nodeConn == Sort(Slice(blocks[0].nodeTags, shape, LastIndex(blocks[0].elemTags, e)))
    ensures forall id :: id in r.edgeConn ==> id in em.Values
  {
    var i := LastIndex(blocks[0].elemTags, e);
    var nodes := Slice(blocks[0].nodeTags, shape, i);
    assert BlockRecords(em, shape, tag, blocks[0])[i] == MakeRecord(em, shape, tag, nodes);
    MakeRecordSpec(em, shape, tag, nodes);
    EdgeIdsRegistered(em, shape, r);
  }

  /** What a successful pass leaves in `material_dim3` or `boundary_dim2`:
      exactly the elements of its groups, each with a well-formed record
      built by the last entity of the last group holding it, so a later
      group overwrites an earlier one's tag. */
  lemma PassTable(em: EdgeKeyMap, shape: Shape, groups: seq<PhysicalGroup>, e: int)
    requires Pass(em, shape, groups).Ok?
    ensures var t := Pass(em, shape, groups).value;
      var g := LastGroup(groups, |groups|, e);
      && (e in t <==> g >= 0)
      && (e in t ==>
            && BuiltFrom(em, shape, groups[g].tag, groups[g].entities[LastEntity(groups[g], |groups[g].entities|, e)], e, t[e])
            && WellFormed(em, shape, t[e])
            && t[e].bcTag == groups[g].tag
            && forall id :: id in t[e].edgeConn ==> id in em.Values)
  {
    PassUpToTable(em, shape, groups, |groups|, e);
    var t := Pass(em, shape, groups).value;
    if e in t {
      var g := LastGroup(groups, |groups|, e);
      BuiltFromWellFormed(em, shape, groups[g].tag, groups[g].entities[LastEntity(groups[g], |groups[g].entities|, e)], e, t[e]);
    }
  }

  /** One more turn of the innermost loop. */
  lemma FillStep(tags: seq<int>, records: seq<Result<Connectivity>>, i: nat, t0: Table, t: Table)
    requires i < |tags| && i < |records|
    requires Fill(tags, records, i, t0) == Ok(t)
    ensures records[i].Ok? ==> Fill(tags, records, i + 1, t0) == Ok(t[tags[i] := records[i].value])
    ensures records[i].Err? ==> Fill(tags, records, i + 1, t0) == Err(records[i].error)
  {
  }

  /** The record of element `i` is what sorting its nodes and looking up its
      local edges gives. */
  lemma BlockRecordAt(em: EdgeKeyMap, shape: Shape, tag: int, block: ElementBlock, i: nat)
    requires i < |block.elemTags|
    ensures var nodeConn := Sort(Slice(block.nodeTags, shape, i));
      var edgeConn := LookupEdges(em, nodeConn, LocalEdges(shape));
      BlockRecords(em, shape, tag, block)[i] ==
        if edgeConn.Err? then Err(edgeConn.error) else Ok(Connectivity(nodeConn, edgeConn.value, tag))
  {
  }

  /** The innermost loop, over the elements of an entity's first block: each
      element's nodes are sorted, its local edges looked up, and its record
      stored under its tag. */
  method IndexBlock(em: EdgeKeyMap, shape: Shape, tag: int, block: ElementBlock, table: Table)
    returns (res: Result<Table>)
    ensures res == Fill(block.elemTags, BlockRecords(em, shape, tag, block), |block.elemTags|, table)
  {
    ghost var records := BlockRecords(em, shape, tag, block);
    var t := table;
    var i := 0;
    while i < |block.elemTags|
      invariant 0 <= i <= |block.elemTags|
      invariant Fill(block.elemTags, records, i, table) == Ok(t)
    {
      var nodeConn := Sort(Slice(block.nodeTags, shape, i));
      var edgeConn := LookupEdges(em, nodeConn, LocalEdges(shape));
      BlockRecordAt(em, shape, tag, block, i);
      FillStep(block.elemTags, records, i, table, t);
      if edgeConn.Err? {
        FillErr(block.elemTags, records, i + 1, |block.elemTags|, table);
        return Err(edgeConn.error);
      }
      t := t[block.elemTags[i] := Connectivity(nodeConn, edgeConn.value, tag)];
      i := i + 1;
    }
    res := Ok(t);
  }


  /** The body of the middle loop for one entity: its first element block,
      or `IndexError` when it has none. */
  method IndexEntity(em: EdgeKeyMap, shape: Shape, tag: int, blocks: seq<ElementBlock>, table: Table)
    returns (res: Result<Table>)
    ensures res == EntityPass(em, shape, tag, blocks, table)
  {
    if blocks == [] {
      return Err(IndexError);
    }
    res := IndexBlock(em, shape, tag, blocks[0], table);
  }

  /** One more turn of the middle loop. */
  lemma GroupPassStep(em: EdgeKeyMap, shape: Shape, group: PhysicalGroup, j: nat, table: Table, t: Table)
    requires j < |group.entities|
    requires GroupPass(em, shape, group, j, table) == Ok(t)
    ensures GroupPass(em, shape, group, j + 1, table) == EntityPass(em, shape, group.tag, group.entities[j], t)
  {
  }

  /** The middle loop, over the entities of one group. */
  method IndexGroup(em: EdgeKeyMap, shape: Shape, group: PhysicalGroup, table: Table)
    returns (res: Result<Table>)
    ensures res == GroupPass(em, shape, group, |group.entities|, table)
  {
    var t := table;
    var j := 0;
    while j < |group.entities|
      invariant 0 <= j <= |group.entities|
      invariant GroupPass(em, shape, group, j, table) == Ok(t)
    {
      var r := IndexEntity(em, shape, group.tag, group.entities[j], t);
      GroupPassStep(em, shape, group, j, table, t);
      if r.Err? {
        GroupPassErr(em, shape, group, j + 1, |group.entities|, table);
        return r;
      }
      t := r.value;
      j := j + 1;
    }
    res := Ok(t);
  }

  /** The outer loop of a material or boundary pass, over its groups; the
      dictionary is filled in place and the registry is only read. */
  method Index(em: EdgeKeyMap, shape: Shape, groups: seq<PhysicalGroup>)
    returns (res: Result<Table>)
    ensures res == Pass(em, shape, groups)
  {
    var t: Table := map[];
    var g := 0;
    while g < |groups|
      invariant 0 <= g <= |groups|
      invariant PassUpTo(em, shape, groups, g) == Ok(t)
    {
      var r := IndexGroup(em, shape, groups[g], t);
      if r.Err? {
        PassUpToErr(em, shape, groups, g + 1, |groups|);
        return r;
      }
      t := r.value;
      g := g + 1;
    }
    res := Ok(t);
  }

  // ---------------------------------------------------------------------------
  // The whole script
  // ---------------------------------------------------------------------------

  /** The three dictionaries the script builds. */
  datatype Cavity = Cavity(edgeKeyMap: EdgeKeyMap, materialDim3: Table, boundaryDim2: Table)

  /** The registry, then the tetrahedra of the `MATERIAL` groups, then the
      triangles of the `BOUNDARY` groups; the first exception ends the script. */
  method Preprocess(edgeTags: seq<int>, edgeNodes: seq<int>, materials: seq<PhysicalGroup>, boundaries: seq<PhysicalGroup>)
    returns (res: Result<Cavity>)
    ensures BuildEdgeKeyMap(edgeTags, edgeNodes).Err? ==> res == Err(IndexError)
    ensures BuildEdgeKeyMap(edgeTags, edgeNodes).Ok? ==>
      var em := BuildEdgeKeyMap(edgeTags, edgeNodes).value;
      && (Pass(em, Tetrahedron, materials).Err? ==> res == Err(Pass(em, Tetrahedron, materials).error))
      && (Pass(em, Tetrahedron, materials).Ok? && Pass(em, Triangle, boundaries).Err? ==>
            res == Err(Pass(em, Triangle, boundaries).error))
      && (res.Ok? <==> Pass(em, Tetrahedron, materials).Ok? && Pass(em, Triangle, boundaries).Ok?)
    ensures res.Ok? ==>
      && res.value.edgeKeyMap == BuildEdgeKeyMap(edgeTags, edgeNodes).value
      && res.value.materialDim3 == Pass(res.value.edgeKeyMap, Tetrahedron, materials).value
      && res.value.boundaryDim2 == Pass(res.value.edgeKeyMap, Triangle, boundaries).value
    ensures res.Ok? ==>
      && (forall e :: e in res.value.materialDim3 ==> WellFormed(res.value.edgeKeyMap, Tetrahedron, res.value.materialDim3[e]))
      && (forall e :: e in res.value.boundaryDim2 ==> WellFormed(res.value.edgeKeyMap, Triangle, res.value.boundaryDim2[e]))
    ensures res.Ok? ==>
      forall e, id :: e in res.value.boundaryDim2 && id in res.value.boundaryDim2[e].edgeConn ==>
        id in res.value.edgeKeyMap.Values
  {
    var built := BuildEdgeKeyMap(edgeTags, edgeNodes);
    if built.Err? {
      return Err(built.error);
    }
    var em := built.value;
    var materialDim3 := Index(em, Tetrahedron, materials);
    if materialDim3.Err? {
      return Err(materialDim3.error);
    }
    var boundaryDim2 := Index(em, Triangle, boundaries);
    if boundaryDim2.Err? {
      return Err(boundaryDim2.error);
    }
    forall e | e in materialDim3.value
      ensures WellFormed(em, Tetrahedron, materialDim3.value[e])
    {
      PassTable(em, Tetrahedron, materials, e);
    }
    forall e | e in boundaryDim2.value
      ensures WellFormed(em, Triangle, boundaryDim2.value[e])
      ensures forall id :: id in boundaryDim2.value[e].edgeConn ==> id in em.Values
    {
      PassTable(em, Triangle, boundaries, e);
    }
    res := Ok(Cavity(em, materialDim3.value, boundaryDim2.value));
  }
}
