# Mesh pre-processing of the PPGEE finite-element scripts, in Dafny

This project models the discrete core of the repository's gmsh pre-processing scripts. It has two parts.

**Edge registry and element connectivity (rectangular cavity).**
`p53_rectangular_cavity/pre_processing/domain.py` works in three steps:
- It builds `edge_key_map`, a dictionary from an ascending node pair to an edge tag. Pair position `i` of gmsh's flat edge-node array is paired with the `i`-th entry of the *sorted* edge tags. A later position with the same pair overwrites an earlier one.
- For every tetrahedron of every material group it stores a record in `material_dim3`, keyed by element tag. The record holds:
  - `node_conn`: the element's four nodes, sorted;
  - `edge_conn`: six edge ids, looked up in `edge_key_map` for the local pairs (0,1)(0,2)(0,3)(1,2)(1,3)(2,3);
  - `bc_tag`: the tag of the group.
- The triangles of every boundary group go into `boundary_dim2` the same way, with the pairs (0,1)(0,2)(1,2) and the same registry.

A missing pair raises `KeyError`. An entity without element blocks, or a short node array, raises `IndexError`. Either one ends the script. A later group overwrites an earlier group's record for the same element tag.

**Edge table (vectorial Poisson problem).**
`p41_vectorial_poisson_problem/pre_processing/domain.py` builds `edge_mapping`, a dictionary from edge tag to the sorted node pair. It then copies that dictionary in ascending key order into `sorted_edge_mapping`.

**Boundary-tag classification (2-D scatterer scripts).**
Four 2-D scatterer scripts compute curve and surface tag lists:
- They split gmsh's oriented boundaries by sign. Negative curves are negated into scatterer tags; positive curves become contour tags.
- The partial-PML script with cut lines also:
  - sorts the PML region boundaries;
  - concatenates them;
  - picks the internal cut lines with set intersection and difference;
  - picks the outer PML contour as the curves that occur exactly once.
- Three of the scripts pair their lists with their physical-group tables. `domain_lines.py` registers no groups in the modelled lines.

Modules:
- `Outcomes`: Python's `IndexError` and `KeyError`, and a `Result` type.
- `Sorting`: `sorted`, and the order predicates.
- `RectangularCavity`: the p53 script.
- `VectorialPoisson`: the p41 script.
- `BoundaryTags`: the comprehensions and the registration loop shared by the scatterer scripts.
- `PartialPmlLines`, `DomainLines`, `CircularPecScattererPml`, `PartialPml`: one module per scatterer script.

How loops are modelled:
- Each loop that fills a dictionary is a `method` with a `while` loop: `IndexBlock`, `IndexGroup`, `Index` and `BuildEdgeMapping`. `Preprocess` runs the registry and then calls `Index` for each pass.
- Each such method is proved equal to a fold function: `Fill`, `GroupPass`, `Pass` and `MappingUpTo`.
- What the scripts promise is proved about those functions as lemmas.
- Comprehensions are functions.

A Python dict remembers insertion order, and `sorted_edge_mapping` is built by iterating over the keys. So `VectorialPoisson.EdgeMapping` keeps that order next to the map.

Facts about the p53 code that the model reproduces:
- The edge id stored for pair position `i` is `sorted(edgeTags)[i]`; when two positions give the same pair, the last one wins.
- Only the sorted `node_conn` is kept; the element's node order from gmsh is not stored.
- There is no face registry.
- The only errors the modelled lines raise are `KeyError`, for a local pair missing from the registry, and `IndexError`, for a short node array or an entity without element blocks.

## Model

| member | source | states |
|---|---|---|
| Sorting.Sort | p53_rectangular_cavity/pre_processing/domain.py:42 | `sorted` returns a list of the same length |
| Sorting.SortSpec | p53_rectangular_cavity/pre_processing/domain.py:95 | `sorted` returns the ascending permutation of its argument |
| Sorting.SortMembers | p41_vectorial_poisson_problem/pre_processing/domain.py:104 | sorting the keys neither adds a key nor drops one |
| Sorting.AscendingOnceIsStrict | p41_vectorial_poisson_problem/pre_processing/domain.py:104 | an ascending list in which no value occurs twice is strictly ascending |
| Sorting.DistinctCounts | p41_vectorial_poisson_problem/pre_processing/domain.py:104 | the keys of a dict each occur once |
| RectangularCavity.CanonicalIsSorted | p53_rectangular_cavity/pre_processing/domain.py:41 | `tuple(sorted([a, b]))` puts the smaller node first, keeps both nodes, and is the same for both orders |
| RectangularCavity.BuildEdgeKeyMap | p53_rectangular_cavity/pre_processing/domain.py:41-42 | the comprehension succeeds exactly when there are two edge nodes per tag; otherwise it raises `IndexError` |
| RectangularCavity.KeyMapKeys | p53_rectangular_cavity/pre_processing/domain.py:41 | a key is present exactly when some pair position gives it; every key is ascending |
| RectangularCavity.KeyMapLastWins | p53_rectangular_cavity/pre_processing/domain.py:41-42 | the key of position `i` holds the `i`-th sorted tag when no later position gives the same key |
| RectangularCavity.KeyMapValues | p53_rectangular_cavity/pre_processing/domain.py:41-42 | every stored value is one of the sorted tags |
| RectangularCavity.KeyMapSize | p53_rectangular_cavity/pre_processing/domain.py:41-42 | at most one entry per tag; exactly one per tag iff the node pairs are distinct as unordered pairs |
| RectangularCavity.EdgeKeyMapSpec | p53_rectangular_cavity/pre_processing/domain.py:41-42 | for the script's inputs: keys are ascending and come from pair positions; the last position wins with its sorted tag; values are gmsh edge tags; the size bound holds, with equality iff the pairs are distinct |
| RectangularCavity.LocalEdges | p53_rectangular_cavity/pre_processing/domain.py:96-103 | the fixed local pairs: six tetrahedron pairs (three triangle pairs, lines 125-129); each pair is `p < q` below the node count |
| RectangularCavity.Slice | p53_rectangular_cavity/pre_processing/domain.py:95 | element `i`'s node slice is at most 4 (or 3) long, clamped like a Python slice; it is exactly `nodeTags[4i..4i+4)` (or `[3i..3i+3)`) when the array is long enough |
| RectangularCavity.LookupEdgesSpec | p53_rectangular_cavity/pre_processing/domain.py:96-103 | the lookups succeed iff every local pair resolves, and then give each pair's registered id in order; otherwise they raise the first failing pair's `KeyError` (with the key), or `IndexError` for a missing node |
| RectangularCavity.MakeRecordSpec | p53_rectangular_cavity/pre_processing/domain.py:94-107 | a record is built iff the element has its nodes and all its local edges are registered; `node_conn` is the ascending permutation of the slice; `edge_conn[k]` is the registry value at the k-th local pair of `node_conn`; `bc_tag` is the group's tag |
| RectangularCavity.LocalKeysCanonical | p53_rectangular_cavity/pre_processing/domain.py:95-103 | the keys a well-formed record looks up are ascending pairs, the form the registry stores |
| RectangularCavity.EdgeIdsRegistered | p53_rectangular_cavity/pre_processing/domain.py:126-128 | every edge id of a well-formed record is a value of `edge_key_map` |
| RectangularCavity.BlockRecords | p53_rectangular_cavity/pre_processing/domain.py:94-95 | one record (or exception) per element tag of the entity's first block |
| RectangularCavity.FillErr | p53_rectangular_cavity/pre_processing/domain.py:94-107 | once an element raises, the element loop ends with that exception |
| RectangularCavity.GroupPassErr | p53_rectangular_cavity/pre_processing/domain.py:88-107 | once an entity raises, the group's loop ends with that exception |
| RectangularCavity.PassUpToErr | p53_rectangular_cavity/pre_processing/domain.py:84-107 | once a group raises, the pass ends with that exception |
| RectangularCavity.FillOk | p53_rectangular_cavity/pre_processing/domain.py:94-107 | the element loop succeeds iff every element gets a record |
| RectangularCavity.FillError | p53_rectangular_cavity/pre_processing/domain.py:94-107 | a failing element loop raises the exception of the first element without a record |
| RectangularCavity.FillTable | p53_rectangular_cavity/pre_processing/domain.py:104-107 | the table gains exactly the block's element tags; an old entry survives unchanged unless its tag comes again; a repeated tag keeps the record of its last element |
| RectangularCavity.FillStep | p53_rectangular_cavity/pre_processing/domain.py:104-107 | one more element either stores its record under its tag or raises its exception |
| RectangularCavity.EntityPassOk | p53_rectangular_cavity/pre_processing/domain.py:89-94 | an entity's turn succeeds iff it has an element block and every element of it builds, whatever the table |
| RectangularCavity.GroupPassOutcome | p53_rectangular_cavity/pre_processing/domain.py:88-107 | a group's loop succeeds iff every one of its entities builds |
| RectangularCavity.GroupPassTable | p53_rectangular_cavity/pre_processing/domain.py:88-107 | after a group, an element is in the table iff it was there or some entity holds it; the last entity holding it decides its record |
| RectangularCavity.GroupPassStep | p53_rectangular_cavity/pre_processing/domain.py:88-94 | one more entity continues the group's loop from the table so far |
| RectangularCavity.PassUpToOutcome | p53_rectangular_cavity/pre_processing/domain.py:84-107 | a pass succeeds iff every entity of every group builds |
| RectangularCavity.PassUpToTable | p53_rectangular_cavity/pre_processing/domain.py:84-107 | after a pass, an element is in the table iff some group holds it; its record was built by the last entity of the last group holding it |
| RectangularCavity.EntityPassError | p53_rectangular_cavity/pre_processing/domain.py:89-107 | a failing entity raises `IndexError` when it has no element block, otherwise the exception of its first element without a record |
| RectangularCavity.GroupPassError | p53_rectangular_cavity/pre_processing/domain.py:88-107 | a failing group raises what its first failing entity raises, every earlier entity having built |
| RectangularCavity.PassUpToError | p53_rectangular_cavity/pre_processing/domain.py:84-107 | a failing pass raises what the first failing entity of its first failing group raises, every earlier entity of every earlier group having built |
| RectangularCavity.EntityBuildsMeaning | p53_rectangular_cavity/pre_processing/domain.py:89-103 | an entity builds iff it has a block and every element's sorted nodes have all local edges registered |
| RectangularCavity.BuiltFromWellFormed | p53_rectangular_cavity/pre_processing/domain.py:94-107 | a stored record is well formed, carries its group's tag, holds the sorted nodes of its element and refers only to registered edge ids |
| RectangularCavity.PassTable | p53_rectangular_cavity/pre_processing/domain.py:84-107 | `material_dim3` (or `boundary_dim2`, lines 114-133) holds exactly the elements of its groups; each record is well formed with the tag of the last group holding the element, so a later group overwrites; all its edge ids are registry values |
| RectangularCavity.IndexBlock | p53_rectangular_cavity/pre_processing/domain.py:94-107 | the element loop sorts each element's nodes, looks up its local edges and stores the record in place; the result is the element-loop fold, whose meaning `FillTable`, `FillOk` and `FillError` state |
| RectangularCavity.IndexEntity | p53_rectangular_cavity/pre_processing/domain.py:89-94 | an entity without element blocks raises `IndexError`; otherwise its first block is indexed |
| RectangularCavity.IndexGroup | p53_rectangular_cavity/pre_processing/domain.py:88-107 | the entity loop of one group computes the group fold |
| RectangularCavity.Index | p53_rectangular_cavity/pre_processing/domain.py:84-107 | the group loop of a pass computes the pass (the boundary pass at 114-133 is the same method, for triangles) |
| RectangularCavity.Preprocess | p53_rectangular_cavity/pre_processing/domain.py:41-133 | the registry, then the material pass, then the boundary pass; the first exception ends the script; on success every record is well formed for the one registry, and every boundary edge id is a value of `edge_key_map` |
| VectorialPoisson.BuildEdgeMapping | p41_vectorial_poisson_problem/pre_processing/domain.py:96-101 | the loop fills `edge_mapping` in place; it raises `IndexError` when the node array is too short |
| VectorialPoisson.MappingStep | p41_vectorial_poisson_problem/pre_processing/domain.py:99-101 | one more turn stores the sorted pair of position `i` under tag `i` |
| VectorialPoisson.MappingEntries | p41_vectorial_poisson_problem/pre_processing/domain.py:99-101 | the keys are exactly the tags seen; each value is the sorted pair of the last position carrying that tag |
| VectorialPoisson.NodePairSpec | p41_vectorial_poisson_problem/pre_processing/domain.py:101 | a stored value is an ascending list of length 2 holding exactly the position's two nodes |
| VectorialPoisson.MappingOrder | p41_vectorial_poisson_problem/pre_processing/domain.py:99-101 | the dict keeps each key once; its insertion order is the order in which tags first appear |
| VectorialPoisson.MappingSize | p41_vectorial_poisson_problem/pre_processing/domain.py:99-101 | at most one entry per turn; exactly one per turn iff the tags are distinct |
| VectorialPoisson.CopyInOrderSpec | p41_vectorial_poisson_problem/pre_processing/domain.py:104 | copying distinct keys inserts them in the given order, each with the source dict's value |
| VectorialPoisson.SortedKeys | p41_vectorial_poisson_problem/pre_processing/domain.py:104 | `sorted(edge_mapping.keys())` is strictly ascending and holds the same keys |
| VectorialPoisson.SortedEdgeMappingSpec | p41_vectorial_poisson_problem/pre_processing/domain.py:104 | `sorted_edge_mapping` is a valid dict with the same entries as `edge_mapping` and strictly ascending keys |
| VectorialPoisson.EdgeMappingsSpec | p41_vectorial_poisson_problem/pre_processing/domain.py:96-104 | both dicts for the script's inputs: the keys are exactly the tags, in first-seen order; values are ascending pairs with the last position winning; the size bound holds, with equality iff the tags are distinct; the sorted copy has the same entries in ascending order |
| BoundaryTags.Tags | p33_circular_pec_scatterer_pml/pre_processing/domain.py:86 | the second components of the dim-tags, with the same length and order |
| BoundaryTags.Filter | p43_vectorial_circular_pec_scatterer/pre_processing/domain_lines.py:108 | a value is kept iff it is in the list and satisfies the condition |
| BoundaryTags.FilterAt | p43_vectorial_circular_pec_scatterer/pre_processing/domain_lines.py:108 | the k-th kept entry is the entry at the k-th satisfying position, so the list order is kept |
| BoundaryTags.FilterCount | p43_vectorial_circular_pec_scatterer/pre_processing/domain_partial_pml_lines.py:136 | a kept value keeps its multiplicity; every other value is gone |
| BoundaryTags.NegatedNegatives | p43_vectorial_circular_pec_scatterer/pre_processing/domain_partial_pml_lines.py:99 | every scatterer tag is positive |
| BoundaryTags.Positives | p43_vectorial_circular_pec_scatterer/pre_processing/domain_partial_pml_lines.py:102 | every kept tag is positive |
| BoundaryTags.NegatedNegativesIsFilter | p43_vectorial_circular_pec_scatterer/pre_processing/domain_partial_pml_lines.py:99 | the scatterer list is, in order, the negation of the negative entries |
| BoundaryTags.PositivesIsFilter | p43_vectorial_circular_pec_scatterer/pre_processing/domain_partial_pml_lines.py:102 | the positive list is, in order, the positive entries |
| BoundaryTags.NegatedNegativesAt | p43_vectorial_circular_pec_scatterer/pre_processing/domain_partial_pml_lines.py:99 | the k-th scatterer tag is the negated tag at the k-th negative position of the boundary |
| BoundaryTags.PositivesAt | p43_vectorial_circular_pec_scatterer/pre_processing/domain_partial_pml_lines.py:102 | the k-th kept tag is the tag at the k-th positive position of the boundary |
| BoundaryTags.NegatedNegativesMembers | p43_vectorial_circular_pec_scatterer/pre_processing/domain_partial_pml_lines.py:99 | `x` is a scatterer tag iff `x > 0` and `-x` is on the boundary |
| BoundaryTags.PositivesMembers | p43_vectorial_circular_pec_scatterer/pre_processing/domain_partial_pml_lines.py:102 | `x` is kept iff `x > 0` and `x` is on the boundary |
| BoundaryTags.SplitCount | p33_circular_pec_scatterer_pml/pre_processing/domain.py:73-74 | each entry lands in exactly one of the negative, positive and zero parts |
| BoundaryTags.SplitLength | p33_circular_pec_scatterer_pml/pre_processing/domain.py:73-74 | the two lists together are no longer than the boundary, and exactly as long iff no tag is 0 |
| BoundaryTags.SignSplit | p43_vectorial_circular_pec_scatterer/pre_processing/domain_partial_pml_lines.py:99-102 | both splits keep their entries in order; membership is characterised by sign; zero tags land in neither list; the length bound holds |
| BoundaryTags.Register | p33_circular_pec_scatterer_pml/pre_processing/domain.py:79-81 | the k-th list is registered with the k-th configured tag and name; the loop raises iff the configuration table is shorter than the lists |
| PartialPmlLines.Unique | p43_vectorial_circular_pec_scatterer/pre_processing/domain_partial_pml_lines.py:129-130 | `list(set(s))` holds each value of `s` once and nothing else |
| PartialPmlLines.Intersection | p43_vectorial_circular_pec_scatterer/pre_processing/domain_partial_pml_lines.py:129 | `cut_line_pml` is duplicate-free and holds exactly the values in both lists |
| PartialPmlLines.Difference | p43_vectorial_circular_pec_scatterer/pre_processing/domain_partial_pml_lines.py:130 | a set difference is duplicate-free and holds exactly the values of the first list missing from the second |
| PartialPmlLines.SingletonsSpec | p43_vectorial_circular_pec_scatterer/pre_processing/domain_partial_pml_lines.py:136 | the `Counter` filter gives exactly the values occurring once, in strictly ascending order |
| PartialPmlLines.PmlBoundarySpec | p43_vectorial_circular_pec_scatterer/pre_processing/domain_partial_pml_lines.py:105-108 | `get_pml_boundary` is ascending and a permutation of the boundary's tags |
| PartialPmlLines.PmlBoundaryMembers | p43_vectorial_circular_pec_scatterer/pre_processing/domain_partial_pml_lines.py:106 | a sorted boundary has exactly the boundary's curves |
| PartialPmlLines.PmlListSpec | p43_vectorial_circular_pec_scatterer/pre_processing/domain_partial_pml_lines.py:122-125 | `pml_list`'s length is the sum of the nine boundary lengths, and its multiset is the sum of theirs |
| PartialPmlLines.ClassifySplit | p43_vectorial_circular_pec_scatterer/pre_processing/domain_partial_pml_lines.py:99-102 | `ScattererTags` and `FreeSpaceTags` are the in-order sign splits of the free-space boundary, with membership by sign and the length bound |
| PartialPmlLines.ClassifyCutLines | p43_vectorial_circular_pec_scatterer/pre_processing/domain_partial_pml_lines.py:129-131 | `CutLineTags` has no duplicates; a curve is on it iff it bounds both strips ii and iii, or it is a model curve in neither `pml_list` nor `ScattererTags` |
| PartialPmlLines.ClassifyOuter | p43_vectorial_circular_pec_scatterer/pre_processing/domain_partial_pml_lines.py:136 | `PmlOuterTags` is strictly ascending and holds exactly the curves occurring once in `pml_list + FreeSpaceTags` |
| PartialPmlLines.CurveRegistration | p43_vectorial_circular_pec_scatterer/pre_processing/domain_partial_pml_lines.py:141-144 | the four curve lists are registered under 101 to 104 with their names, in order, without an `IndexError` |
| PartialPmlLines.SurfaceRegistration | p43_vectorial_circular_pec_scatterer/pre_processing/domain_partial_pml_lines.py:148-151 | the four literal surface lists are registered under 201 to 204 with their names, in order |
| PartialPmlLines.ClassifyRegistration | p43_vectorial_circular_pec_scatterer/pre_processing/domain_partial_pml_lines.py:141-151 | both of the script's registrations, as computed from its lists |
| DomainLines.ClassifySplits | p43_vectorial_circular_pec_scatterer/pre_processing/domain_lines.py:97-107 | `ScattererTag`, `PmlInnTags` and `PmlExtTags` are the in-order sign splits, with membership by sign; `boundary_list` is as long as the three together and holds exactly their curves |
| DomainLines.ClassifyInnerLines | p43_vectorial_circular_pec_scatterer/pre_processing/domain_lines.py:107-108 | `InnerLineTags` holds exactly the model curves not in `boundary_list`, as an order-preserving subsequence of `LineTags` |
| CircularPecScattererPml.ClassifySplits | p33_circular_pec_scatterer_pml/pre_processing/domain.py:73-75 | the three lists are the in-order sign splits; scatterer tags are positive; the inner split is no longer than its boundary, and exactly as long iff no tag is 0 |
| CircularPecScattererPml.ClassifyRegistration | p33_circular_pec_scatterer_pml/pre_processing/domain.py:79-88 | the curve lists go to 101, 102, 103; the two regions' surface tags go to 201 'PML' and 202 'free_space', with their names and without an `IndexError` |
| PartialPml.SurfacesSpec | p43_vectorial_circular_pec_scatterer_pml/pre_processing/domain_partial_pml.py:107-109 | the k-th surface alone goes under the k-th `MATERIAL` entry; the loop raises iff there are more surfaces than entries |
| PartialPml.ClassifySplits | p43_vectorial_circular_pec_scatterer_pml/pre_processing/domain_partial_pml.py:89-93 | `TagList_scatterer` and `tagList_fs` are the in-order sign splits, both positive, together no longer than the boundary |
| PartialPml.ClassifyRegistration | p43_vectorial_circular_pec_scatterer_pml/pre_processing/domain_partial_pml.py:98-109 | the two curve lists go to 101 and 102; the nine surfaces go to 201, 301 to 304 and 401 to 404, in order, without an `IndexError` |

## Left out

- gmsh calls are inputs, not modelled. This covers geometry construction, `cut`, `synchronize`, mesh generation, `createEdges`, `addPhysicalGroup`, `fltk` and `finalize`. Their results enter as plain sequences:
  - `getAllEdges`: edge tags and a flat node array.
  - `getEntitiesForPhysicalGroup` with `getElements`: one list of element blocks per entity.
  - `getBoundary` and `getEntities`: `(dim, tag)` lists.
  - `cut`: the output dim-tags.
  - The surface tags from the geometry kernel.
- `addPhysicalGroup` is modelled only as the list of calls a registration loop issues (`BoundaryTags.Register`).
- `print`, `os.system`, floating-point geometry parameters, mesh-size settings, plotting and the HTML tooling are not modelled. They carry no logic of the core.
- p53's grouping of the whole boundary and volume at lines 48-58 is a gmsh call; its `BOUNDARY`/`MATERIAL` tables reach the model as the groups given to `Preprocess`.
- The `getElements(dim=3)` call and `conn_dict` at lines 66-72 are not modelled. Their only effect is printing; the prints at lines 69 and 71 raise `IndexError` on a mesh without 3-D elements, a case the model does not cover.
- No face registry is modelled, because the modelled scripts build none.
- Tags are unbounded integers. The only arithmetic on tags is the negation, in the scatterer scripts, of the signed Python integers `getBoundary` returns. p53 and p41 only sort and compare their unsigned 64-bit tag arrays and use them as keys, so nothing can wrap.
- PartialPmlLines.Unique: keeps first occurrences instead of CPython's set iteration order, which depends on hashing. Only order-free facts (no duplicates, membership) are stated about it and about `Intersection`, `Difference` and the cut lines.
- PartialPmlLines.Singletons: `Counter.items()` is filtered the same way. Its order does not matter, because the result is sorted.
- DomainLines.ClassifySplits: the script registers no physical groups in the modelled lines, so nothing is paired with its `BOUNDARY`/`MATERIAL` tables.
- PartialPml.Classify: the nine region tags are inputs, because gmsh's geometry kernel assigns them.
