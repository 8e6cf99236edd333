/** The edge table of the vectorial Poisson problem
    (p41_vectorial_poisson_problem/pre_processing/domain.py): every edge tag
    gmsh reports is mapped to its two nodes in ascending order, and the
    table is then copied in ascending key order. */
module VectorialPoisson {
  import opened Outcomes
  import opened Sorting

  /** A Python dict from edge tag to node list. Python dicts remember the
      order in which keys were first inserted, and the script's second dict
      is built by iterating over that order, so the order is part of the
      value. */
  datatype EdgeMapping = EdgeMapping(order: seq<int>, pairs: map<int, seq<int>>)

  /** The invariant every Python dict keeps: its order lists each key once. */
  ghost predicate Valid(d: EdgeMapping) {
    && Distinct(d.order)
    && forall k :: k in d.order <==> k in d.pairs
  }

  /** `d[key] = value`: a new key goes to the end of the order, an existing
      key keeps its place and gets the new value. */
  function Put(d: EdgeMapping, key: int, value: seq<int>): EdgeMapping {
    EdgeMapping(if key in d.pairs then d.order else d.order + [key], d.pairs[key := value])
  }

  /** `sorted([All_edgeNodes[2*i], All_edgeNodes[2*i+1]])`. */
  function NodePair(nodes: seq<int>, i: nat): seq<int>
    requires 2 * i + 1 < |nodes|
  {
    Sort([nodes[2 * i], nodes[2 * i + 1]])
  }

  /** `edge_mapping` after the first `n` turns of the loop. */
  function MappingUpTo(tags: seq<int>, nodes: seq<int>, n: nat): EdgeMapping
    requires n <= |tags| && 2 * n <= |nodes|
  {
    if n == 0 then EdgeMapping([], map[])
    else Put(MappingUpTo(tags, nodes, n - 1), tags[n - 1], NodePair(nodes, n - 1))
  }

  /** `edge_mapping` after the whole loop: reading past the end of the node
      array raises. */
  function EdgeMappingOf(tags: seq<int>, nodes: seq<int>): Result<EdgeMapping> {
    if 2 * |tags| <= |nodes| then Ok(MappingUpTo(tags, nodes, |tags|)) else Err(IndexError)
  }

  /** The loop, updating the dict in place turn by turn. */
  method BuildEdgeMapping(tags: seq<int>, nodes: seq<int>) returns (res: Result<EdgeMapping>)
    ensures res == EdgeMappingOf(tags, nodes)
  {
    var d := EdgeMapping([], map[]);
    var i := 0;
    while i < |tags|
      invariant 0 <= i <= |tags|
      invariant 2 * i <= |nodes|
      invariant d == MappingUpTo(tags, nodes, i)
    {
      if 2 * i + 1 >= |nodes| {
        return Err(IndexError);
      }
      var tag := tags[i];
      var pair := NodePair(nodes, i);
      MappingStep(tags, nodes, i);
      d := Put(d, tag, pair);
      i := i + 1;
    }
    res := Ok(d);
  }

  /** One more turn of the loop. */
  lemma MappingStep(tags: seq<int>, nodes: seq<int>, i: nat)
    requires i < |tags| && 2 * i + 1 < |nodes|
    ensures MappingUpTo(tags, nodes, i + 1) == Put(MappingUpTo(tags, nodes, i), tags[i], NodePair(nodes, i))
  {
  }

  /** Every stored value is the two nodes of the last position carrying its
      tag, in ascending order; the keys are exactly the tags seen. */
  lemma {:induction false} MappingEntries(tags: seq<int>, nodes: seq<int>, n: nat, k: int)
    requires n <= |tags| && 2 * n <= |nodes|
    ensures var d := MappingUpTo(tags, nodes, n);
      && (k in d.pairs <==> k in tags[..n])
      && (k in d.pairs ==> d.pairs[k] == NodePair(nodes, LastIndex(tags[..n], k)))
  {
    if n > 0 {
      assert tags[..n][..n - 1] == tags[..n - 1];
      MappingEntries(tags, nodes, n - 1, k);
    }
  }

  /** A stored value is an ascending list of exactly the two nodes of its
      position. */
  lemma NodePairSpec(nodes: seq<int>, i: nat)
    requires 2 * i + 1 < |nodes|
    ensures |NodePair(nodes, i)| == 2
    ensures NodePair(nodes, i)[0] <= NodePair(nodes, i)[1]
    ensures multiset(NodePair(nodes, i)) == multiset{nodes[2 * i], nodes[2 * i + 1]}
  {
    SortSpec([nodes[2 * i], nodes[2 * i + 1]]);
  }

  /** `o` lists its values in the order of their first occurrence in `s`. */
  ghost predicate InFirstSeenOrder(s: seq<int>, o: seq<int>) {
    forall p, q :: 0 <= p < q < |o| ==> FirstIndex(s, o[p]) < FirstIndex(s, o[q])
  }

  /** The loop keeps the dict invariant, and its order lists the tags in the
      order they first appear. */
  lemma {:induction false} MappingOrder(tags: seq<int>, nodes: seq<int>, n: nat)
    requires n <= |tags| && 2 * n <= |nodes|
    ensures Valid(MappingUpTo(tags, nodes, n))
    ensures InFirstSeenOrder(tags[..n], MappingUpTo(tags, nodes, n).order)
  {
    if n > 0 {
      var s := tags[..n];
      var x := tags[n - 1];
      assert s[..n - 1] == tags[..n - 1];
      MappingOrder(tags, nodes, n - 1);
      var before := MappingUpTo(tags, nodes, n - 1);
      forall k | k in before.order ensures k in s[..n - 1] {
        MappingEntries(tags, nodes, n - 1, k);
      }
      FirstIndexOrderLifts(s, n - 1, before.order);
      var d := MappingUpTo(tags, nodes, n);
      if x in before.pairs {
        assert d.order == before.order;
        assert d.pairs.Keys == before.pairs.Keys;
      } else {
        assert d.order == before.order + [x];
        MappingEntries(tags, nodes, n - 1, x);
        FirstIndexPrefix(s, n - 1, x);
        DistinctSnoc(before.order, x);
        OrderAppend(s, n - 1, before.order, x);
      }
    }
  }

  /** First occurrences inside a prefix keep their order in the whole list. */
  lemma FirstIndexOrderLifts(s: seq<int>, m: nat, o: seq<int>)
    requires m <= |s|
    requires forall k :: k in o ==> k in s[..m]
    requires InFirstSeenOrder(s[..m], o)
    ensures forall p :: 0 <= p < |o| ==> FirstIndex(s, o[p]) < m
    ensures InFirstSeenOrder(s, o)
  {
    forall p | 0 <= p < |o| ensures FirstIndex(s, o[p]) == FirstIndex(s[..m], o[p]) < m {
      FirstIndexPrefix(s, m, o[p]);
    }
  }

  /** A value first seen after every listed one may follow them. */
  lemma OrderAppend(s: seq<int>, m: nat, o: seq<int>, x: int)
    requires InFirstSeenOrder(s, o)
    requires forall p :: 0 <= p < |o| ==> FirstIndex(s, o[p]) < m
    requires FirstIndex(s, x) >= m
    ensures InFirstSeenOrder(s, o + [x])
  {
    var o' := o + [x];
    forall p, q | 0 <= p < q < |o'| ensures FirstIndex(s, o'[p]) < FirstIndex(s, o'[q]) {
      assert o'[p] == o[p];
      if q < |o| {
        assert o'[q] == o[q];
      }
    }
  }

  /** Looking in a longer list does not move a first occurrence inside the
      prefix. */
  lemma {:induction false} FirstIndexPrefix(s: seq<int>, m: nat, x: int)
    requires m <= |s|
    ensures x in s[..m] ==> FirstIndex(s, x) == FirstIndex(s[..m], x) < m
    ensures x !in s[..m] ==> FirstIndex(s, x) >= m
  {
    if s != [] && s[0] != x && m > 0 {
      assert s[..m][1..] == s[1..][..m - 1];
      FirstIndexPrefix(s[1..], m - 1, x);
    }
  }

  /** The dict has at most one entry per turn, and exactly one per turn when
      the tags are distinct. */
  lemma {:induction false} MappingSize(tags: seq<int>, nodes: seq<int>, n: nat)
    requires n <= |tags| && 2 * n <= |nodes|
    ensures |MappingUpTo(tags, nodes, n).pairs| <= n
    ensures |MappingUpTo(tags, nodes, n).pairs| == n <==> Distinct(tags[..n])
  {
    if n > 0 {
      var x := tags[n - 1];
      assert tags[..n] == tags[..n - 1] + [x];
      MappingSize(tags, nodes, n - 1);
      DistinctSnoc(tags[..n - 1], x);
      MappingEntries(tags, nodes, n - 1, x);
      var before := MappingUpTo(tags, nodes, n - 1);
      if x !in before.pairs {
        assert before.pairs[x := NodePair(nodes, n - 1)].Keys == before.pairs.Keys + {x};
      }
    }
  }

  /** A dict built by inserting `keys` one after another with the values
      `src` holds for them. */
  function CopyInOrder(src: map<int, seq<int>>, keys: seq<int>): EdgeMapping
    requires forall k :: k in keys ==> k in src
  {
    if keys == [] then EdgeMapping([], map[])
    else
      var last := keys[|keys| - 1];
      Put(CopyInOrder(src, keys[..|keys| - 1]), last, src[last])
  }

  /** Copying distinct keys inserts them in the given order, each with its
      value from the source dict. */
  lemma {:induction false} CopyInOrderSpec(src: map<int, seq<int>>, keys: seq<int>)
    requires forall k :: k in keys ==> k in src
    requires Distinct(keys)
    ensures CopyInOrder(src, keys).order == keys
    ensures forall k :: k in CopyInOrder(src, keys).pairs <==> k in keys
    ensures forall k :: k in CopyInOrder(src, keys).pairs ==> CopyInOrder(src, keys).pairs[k] == src[k]
  {
    if keys != [] {
      var init := keys[..|keys| - 1];
      var last := keys[|keys| - 1];
      assert keys == init + [last];
      DistinctSnoc(init, last);
      CopyInOrderSpec(src, init);
    }
  }

  /** `sorted_edge_mapping`: a new dict filled by iterating over the sorted
      keys of `edge_mapping`. */
  function SortedEdgeMapping(d: EdgeMapping): EdgeMapping
    requires forall k :: k in d.order ==> k in d.pairs
  {
    var keys := Sort(d.order);
    assert forall k :: k in keys ==> k in d.pairs by {
      SortMembers(d.order);
    }
    CopyInOrder(d.pairs, keys)
  }

  /** The sorted keys of a dict are strictly ascending and are the same
      keys. */
  lemma SortedKeys(order: seq<int>)
    requires Distinct(order)
    ensures StrictlyAscending(Sort(order))
    ensures multiset(Sort(order)) == multiset(order)
    ensures forall k :: k in Sort(order) <==> k in order
  {
    SortSpec(order);
    SortMembers(order);
    DistinctCounts(order);
    AscendingOnceIsStrict(Sort(order));
  }

  /** Copying in sorted key order keeps a valid dict with the same entries
      and puts its keys in strictly ascending order. */
  lemma SortedEdgeMappingSpec(d: EdgeMapping)
    requires Valid(d)
    ensures Valid(SortedEdgeMapping(d))
    ensures SortedEdgeMapping(d).pairs == d.pairs
    ensures StrictlyAscending(SortedEdgeMapping(d).order)
    ensures multiset(SortedEdgeMapping(d).order) == multiset(d.order)
  {
    var keys := Sort(d.order);
    SortedKeys(d.order);
    assert Distinct(keys);
    assert SortedEdgeMapping(d) == CopyInOrder(d.pairs, keys);
    CopyInOrderSpec(d.pairs, keys);
    SameEntries(CopyInOrder(d.pairs, keys).pairs, d.pairs);
  }

  /** Two dicts with the same keys and the same value under each key are
      equal. */
  lemma SameEntries(a: map<int, seq<int>>, b: map<int, seq<int>>)
    requires forall k :: k in a <==> k in b
    requires forall k :: k in a ==> a[k] == b[k]
    ensures a == b
  {
    forall k ensures (k in a <==> k in b) && (k in a ==> a[k] == b[k]) {
    }
  }

  /** The two dicts the script builds: both valid, one entry per distinct
      edge tag in first-seen order, each edge's ascending node pair under its
      tag with the last position of a repeated tag winning, and the second
      dict holding the same entries in ascending tag order. */
  lemma EdgeMappingsSpec(tags: seq<int>, nodes: seq<int>)
    requires 2 * |tags| <= |nodes|
    ensures var d := EdgeMappingOf(tags, nodes).value;
      && Valid(d)
      && InFirstSeenOrder(tags, d.order)
      && (forall k :: k in d.pairs <==> k in tags)
      && (forall k :: k in d.pairs ==> d.pairs[k] == NodePair(nodes, LastIndex(tags, k)))
      && (forall k :: k in d.pairs ==> |d.pairs[k]| == 2 && d.pairs[k][0] <= d.pairs[k][1])
      && |d.pairs| <= |tags|
      && (|d.pairs| == |tags| <==> Distinct(tags))
      && (var sd := SortedEdgeMapping(d); Valid(sd) && sd.pairs == d.pairs && StrictlyAscending(sd.order))
  {
    var n := |tags|;
    var d := MappingUpTo(tags, nodes, n);
    assert tags[..n] == tags;
    MappingOrder(tags, nodes, n);
    MappingSize(tags, nodes, n);
    SortedEdgeMappingSpec(d);
    forall k | k in d.pairs ensures |d.pairs[k]| == 2 && d.pairs[k][0] <= d.pairs[k][1] {
      MappingEntries(tags, nodes, n, k);
      NodePairSpec(nodes, LastIndex(tags, k));
    }
    forall k ensures (k in d.pairs <==> k in tags) && (k in d.pairs ==> d.pairs[k] == NodePair(nodes, LastIndex(tags, k))) {
      MappingEntries(tags, nodes, n, k);
    }
  }
}
