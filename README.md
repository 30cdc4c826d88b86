# Abstract-DT skeletons in Dafny

A Dafny model of the sequential core of the Abstract-DT C++ template
library. It covers four pieces:

- **Balanced Fractal index arithmetic** (`FractalDynamic`, `fractal_dynamic.dfy`).
  A complete `Arity`-ary tree is laid out depth by depth in one flat array.
  The index of a node's first and last child, the number of elements per
  depth and per level, and the start and end of each depth's range are closed
  forms over `Arity` and over the table `geo_progression` of geometric sums.
  `index_to_depth` scans that table to map an index back to its depth. The
  class `Fractal` holds the type, the strategy, `top_level` and the table. The
  class `Element` holds a node's seed, coordinates and links, with the default
  hooks and accessors. `ElementInfo` is a value type: its defaults, its copy
  (which does not copy the child id) and its `check()` guard.
- **Recursive Fractal construction and array helpers** (`FractalTree`,
  `fractal_tree.dfy`). A node with a positive level, whose stop condition does
  not fire, builds `Arity` children, each one level down and one depth further.
  `map` rewrites a prefix of an array in place. `reduce` sums it.
- **Linear fold** (`LinearFold`, `fold.dfy`). This is a vector of elements.
  `grow` appends new elements at the back. `shrink` pops back to a given depth
  and refuses out-of-range depths. `inject` threads a seed from the first
  element onward. Each element can plant and extract its own seed.
- **Labeled graph** (`LabeledGraph`, `graph.dfy`). Node slots live in storage
  reserved at construction and are written only below the capacity. Edges are
  kept in a table keyed by `(from, to)`, with insert-or-overwrite and
  lookup-with-default.

Shared arithmetic (`Arith`, `arith.dfy`) includes exact powers in place of
`std::pow`, the geometric series 1 + A + … + A^(n-1), and the proof that the
source's quotient `(A^n - 1) / (A - 1)` divides exactly.

What the model makes explicit about the code as written:

- `std::pow` with a negative exponent gives a fraction, and the conversion to
  `int` or `size_t` truncates it to 0. So `geo_sum(i < 0)`,
  `depth_elements_num(d < 0)` and `level_elements_num(lvl > top_level)` are 0.
- `fractal_elements_num()` returns `geo_progression[top_level]`, which counts
  the depths 0 … `top_level - 1` only. Adding `level_elements_num(0)` gives
  the geometric sum of `top_level + 1` terms (`FractalElementsPlusLeaves`).
- `Fold::grow` never changes `depth`. The constructor sets `depth` to -1, so on
  a fold built and grown through the interface every `shrink` is rejected
  (`GrowThenShrink`).
- For the same reason `depth` is -1 whenever `Fold::inject` can be called: no
  sequence of construction, `grow` and `shrink` raises it
  (`DepthStaysNegative`). The loop bound `i < depth` then compares against -1
  converted to the largest `size_t`, so every `inject` runs past the end of
  `elements`. `LinearFold.Fold.Inject` models the loop only for a depth the
  interface never produces.
- `Element(fractal, info, parent)` in `Fractal.h` calls `stop_condition()`
  from inside the constructor. During construction C++ dispatches that call
  to `Element::stop_condition`, never to an override in `ElemType`, so no
  user stop condition takes effect as written. The model's supplied stop
  predicate is therefore a modelling choice, and reaching the end of the
  default, which returns no value, is undefined behaviour (see "## Left out").
- `Graph(size)` only reserves storage, and nothing ever grows the node
  vector, so `node_size()` stays 0. Every `add_node` that passes its guard
  therefore indexes at or past `size()`, which is undefined behaviour.
  `LabeledGraph.Graph.AddNode` records the write an unchecked library makes
  into the reserved storage (see "## Left out").

## Model

| member | source | states |
|---|---|---|
| `Arith.Pow` | include/Fractal_dynamic.h:87 | integer power used for `std::pow(Arity, i)`: at least 1 for a base of at least 1, and at least the base for a base of at least 2 and a positive exponent |
| `Arith.GeoSeriesClosedForm` | include/Fractal_dynamic.h:195-201 | (A-1) · (1 + A + … + A^(n-1)) = A^n − 1 |
| `Arith.GeoSeriesQuotient` | include/Fractal_dynamic.h:195-201 | for A ≥ 2, the integer quotient (A^n − 1)/(A − 1) is exact and equals the geometric series |
| `Arith.GeoSeriesStep` | include/Fractal_dynamic.h:195-201 | s(n+1) = A·s(n) + 1 for the geometric series |
| `Arith.GeoSeriesMonotone` | include/Fractal_dynamic.h:195-201 | the series grows with its number of terms |
| `FractalDynamic.CopyInfoFacts` | include/Fractal_dynamic.h:209-221 | default info has depth, level and index −1 and passes `check()`; the copy keeps depth, level and index and leaves child id unset; `check()` fails exactly at level 0 and agrees on a copy and its original |
| `FractalDynamic.Fractal.SetType` | include/Fractal_dynamic.h:69-70 | `get_type()` returns the type set; strategy, levels and table unchanged |
| `FractalDynamic.Fractal.SetImplType` | include/Fractal_dynamic.h:72-73 | `get_impl_type()` returns the strategy set; type, levels and table unchanged |
| `FractalDynamic.Fractal.GeoSum` | include/Fractal_dynamic.h:86-88 | `geo_sum(i)` is 1 + A + … + A^(i-1) for i ≥ 0 (the division is exact) and 0 for i ≤ 0 |
| `FractalDynamic.GeoSumRecurrence` | include/Fractal_dynamic.h:195-201 | `geo_sum(0) = 0`, `geo_sum(1) = 1`, `geo_sum(i+1) = A·geo_sum(i) + 1` |
| `FractalDynamic.GeoSumMonotone` | include/Fractal_dynamic.h:86-88 | `geo_sum` is non-decreasing |
| `FractalDynamic.Fractal.DepthElementsNum` | include/Fractal_dynamic.h:92-94 | elements at depth d ≥ 0 are `geo_sum(d+1) − geo_sum(d)`, at least 1; 0 for a negative depth |
| `FractalDynamic.Fractal.LevelElementsNum` | include/Fractal_dynamic.h:96-98 | elements at level lvl are the elements at depth `top_level − lvl` |
| `FractalDynamic.Fractal.FractalElementsNum` | include/Fractal_dynamic.h:102-108 | with a table that matches `geo_sum`, both branches (table entry or closed form) give `geo_sum(top_level)` |
| `FractalDynamic.FractalElementsPlusLeaves` | include/Fractal_dynamic.h:96-108 | with a matching table, `fractal_elements_num() + level_elements_num(0) = geo_sum(top_level + 1)` |
| `FractalDynamic.Fractal.FirstChild` | include/Fractal_dynamic.h:111-113 | the first child's index exceeds the parent's |
| `FractalDynamic.Fractal.LastChild` | include/Fractal_dynamic.h:116-118 | the child range of every parent has exactly Arity indices |
| `FractalDynamic.Fractal.ChildIndex` | include/Fractal_dynamic.h:121-123 | as written, `child_index(p, c)` lies in `[first_child(p), last_child(p)]` exactly for c in 1 … Arity, and c = 0 gives the index just before `first_child(p)` |
| `FractalDynamic.ChildIndexAsWritten` | include/Fractal_dynamic.h:121-123 | as written `child_index(p,1)` is the first child and `child_index(p,Arity)` the last; `child_index(p,0)` lies before the child range, and `child_index(0,0)` is the root |
| `FractalDynamic.Fractal.ChildSlot` | include/Fractal_dynamic.h:121-123 | corrected child index: a child id in 0 … Arity−1 lands in `[first_child(p), last_child(p)]` |
| `FractalDynamic.ChildSlotsDistinct` | include/Fractal_dynamic.h:111-123 | distinct (parent, child id) pairs get distinct slots; consecutive parents have adjacent child ranges |
| `FractalDynamic.Fractal.DepthStartIndex` | include/Fractal_dynamic.h:144-146 | with a matching table, depth d starts at `geo_sum(d)` |
| `FractalDynamic.Fractal.DepthEndIndex` | include/Fractal_dynamic.h:148-150 | with a matching table, the range of depth d ≥ 0 holds `depth_elements_num(d)` = A^d indices and depth d+1 starts right after it; `depth_end_index(-1)` is −1 |
| `FractalDynamic.DepthRangesDisjoint` | include/Fractal_dynamic.h:144-150 | ranges of different depths do not overlap and are ordered by depth |
| `FractalDynamic.Fractal.LevelStartIndex` | include/Fractal_dynamic.h:136-138 | level lvl starts at `geo_sum(top_level − lvl)` |
| `FractalDynamic.Fractal.LevelEndIndex` | include/Fractal_dynamic.h:140-142 | with a matching table, the range of level lvl ≤ `top_level` holds `level_elements_num(lvl)` indices; level `top_level + 1`, which `index_to_level` returns past the table, ends at −1 |
| `FractalDynamic.Fractal.IndexToDepth` | include/Fractal_dynamic.h:125-130 | returns one less than the least i ≥ 1 with `index < geo_progression[i]`, or −1 when there is none |
| `FractalDynamic.DepthRange` | include/Fractal_dynamic.h:125-150 | a non-negative index lies within the depth range of the depth returned for it |
| `FractalDynamic.RangeGivesDepth` | include/Fractal_dynamic.h:125-150 | conversely, every index within the range of depth d maps to d |
| `FractalDynamic.IsDepthOfUnique` | include/Fractal_dynamic.h:125-130 | at most one depth fits the scan's characterisation, so `DepthRange`, `RangeGivesDepth` and `ChildrenOneDepthDown` speak about the one value `index_to_depth` returns |
| `FractalDynamic.PastTable` | include/Fractal_dynamic.h:125-130 | the scan yields −1 exactly for indices at or past the last table entry |
| `FractalDynamic.Fractal.IndexToLevel` | include/Fractal_dynamic.h:132-134 | the level returned is `top_level` minus the depth, and the index lies within that level's range |
| `FractalDynamic.ChildrenOneDepthDown` | include/Fractal_dynamic.h:111-130 | every child of a parent at depth d, the first and last child included, maps to depth d+1 |
| `FractalDynamic.Element.GrowthStopCondition` | include/Fractal_dynamic.h:243 | by default growth never stops early |
| `FractalDynamic.Element.GetChildPtr` | include/Fractal_dynamic.h:255 | returns one of the element's children (index must be within the vector) |
| `FractalDynamic.Element.HasChildren` | include/Fractal_dynamic.h:257 | true exactly when the child vector is not empty |
| `FractalDynamic.Element.GetFractalType` | include/Fractal_dynamic.h:265-267 | the owning fractal's type, unbalanced for an element with no fractal |
| `FractalDynamic.Element.GetFractalImplType` | include/Fractal_dynamic.h:269-271 | the owning fractal's strategy, sequential for an element with no fractal |
| `FractalDynamic.Element.PlantSeed` | include/Fractal_dynamic.h:273-277 | `get_seed()` returns the planted seed; no other field changes |
| `FractalDynamic.SetTypesSeenByElement` | include/Fractal_dynamic.h:260-271 | after setting a fractal's type and strategy, its elements report them |
| `FractalTree.CheckFacts` | include/Fractal.h:27-35 | default info has depth and level −1 and passes `check()`; `check()` stops exactly at level 0 |
| `FractalTree.Construct` | include/Fractal.h:52-66 | builds exactly Arity children when level > 0 and the stop condition is false, none otherwise; each child has level − 1 and depth + 1; result is the tree `Grown` describes |
| `FractalTree.DepthPlusLevelConstant` | include/Fractal.h:55-63 | depth + level is the same at every node of a constructed tree |
| `FractalTree.ParentsPassCheck` | include/Fractal.h:30-63 | every node that has children is at a level that passes `check()` |
| `FractalTree.LeavesAtLevelZero` | include/Fractal.h:55-65 | with no early stop and level ≥ 0, leaves are exactly the nodes at level 0 and every inner node has Arity children |
| `FractalTree.GrownSizeSeries` | include/Fractal.h:55-63 | with no early stop, a tree built at level L has 1 + A + … + A^L nodes |
| `FractalTree.GrownSize` | include/Fractal.h:55-63 | … that is, (A^(L+1) − 1)/(A − 1) nodes |
| `FractalTree.MapInPlace` | include/Fractal.h:110-115 | `array[i] = f(old array[i])` for every i < n; all other entries unchanged |
| `FractalTree.Reduce` | include/Fractal.h:117-127 | returns `array[0] + … + array[n−1]`, 0 when n = 0 |
| `FractalTree.SumConcat` | include/Fractal.h:117-127 | the sum splits over a concatenation of two ranges |
| `LinearFold.Element.constructor` | include/Fold.h:32 | a new element has depth −1 and the value-initialised seed |
| `LinearFold.Element.PlantSeed` | include/Fold.h:40 | the element's seed becomes s; depth unchanged |
| `LinearFold.PlantThenExtract` | include/Fold.h:32-41 | on a new element, `extract_seed()` after `plant_seed(s)` returns s, and the depth is −1 |
| `LinearFold.Fold.constructor` | include/Fold.h:63-65 | a new fold has no elements and depth −1 |
| `LinearFold.Fold.Destroy` | include/Fold.h:67-71 | the destructor resets depth to −1 and clears the elements |
| `LinearFold.Fold.Grow` | include/Fold.h:73-79 | appends exactly k new elements (depth −1, default seed) at the back; existing elements and the depth field unchanged |
| `LinearFold.Fold.Shrink` | include/Fold.h:81-92 | with depth ≥ nd ≥ 0, removes exactly depth − nd elements from the back and sets depth to nd; otherwise reports an error and changes nothing |
| `LinearFold.ShrinkIdempotent` | include/Fold.h:81-92 | the same guard and effect on values, and a repeated shrink to the same depth removes nothing |
| `LinearFold.GrowThenShrink` | include/Fold.h:63-92 | on a new fold, `grow(k)` then `shrink(nd)` is rejected for every nd and keeps all k elements |
| `LinearFold.DepthStaysNegative` | include/Fold.h:63-110 | after construction, `grow(k)` and any `shrink(nd)`, depth is −1, so the precondition under which `Inject` models `inject` is never met |
| `LinearFold.Fold.Inject` | include/Fold.h:103-110 | element 0 receives the caller's seed, and element i (1 ≤ i < depth) receives what element i−1 returned; max(1, depth) elements are called |
| `LabeledGraph.Graph.constructor` | include/Graph.h:19 | capacity `size`, node count 0, no edges |
| `LabeledGraph.Graph.AddNode` | include/Graph.h:31-37 | writes slot i exactly when 0 ≤ i < capacity; no other slot, no edge and no count changes |
| `LabeledGraph.Graph.AddEdge` | include/Graph.h:39-41 | afterwards `find_edge(key)` is the new edge and other keys find what they found before; `edge_size()` grows by one exactly for a new key; nodes unchanged |
| `LabeledGraph.Graph.FindEdge` | include/Graph.h:43-50 | the stored edge for a present key, `invalid_edge` (the default `EdgeType`) otherwise |

## Left out

- `grow`, `compute`, the constructor `Fractal()`, `Element(const ElementInfo&)` and `Element::compute` of the dynamic Fractal are defined in `Fractal_dynamic.tpp`, which is not part of this model. The model's `Fractal` constructor takes `top_level` and `geo_progression` as grow would leave them, and the lemmas assume the table holds `geo_sum(i)` (`TableMatches`).
- Parallel execution (OpenMP, `ImplType::parallel`) is left out because its point is concurrency. The strategy is kept only as a field.
- Floating point in `std::pow` is replaced by exact integer powers. Rounding of large doubles and overflow of `int` and `size_t` are not modelled. `Arity` is at least 2, because the closed forms divide by `Arity - 1`.
- `first_child`, `last_child` and `child_index` take a non-negative parent index. For a negative index the source's conversion to `size_t` wraps around, and that is not modelled.
- `FractalDynamic.Fractal.ChildIndex` and `FractalDynamic.Fractal.ChildSlot` take any integer child id and return a signed result. For a negative child id whose sum is negative, such as `child_index(0, -1)`, the source's `size_t` result wraps around to a huge index, while the model returns the negative integer.
- `Element::grow()` and `grow(seed)` have empty bodies, so there is nothing to state.
- `spawn_child_seed` returns a default-initialised `Seed_t`, whose value depends on the seed type (indeterminate for scalar seeds), so it is not modelled.
- These are plain field reads, modelled as functions without contracts:
  - `element_info()`, `get_parent_ptr()`, `get_fractal()` and `get_seed()` (`FractalDynamic.Element`);
  - `get_type()` and `get_impl_type()` (`FractalDynamic.Fractal.GetType` and `GetImplType`, whose values the setters' contracts state);
  - `extract_seed()` (`LinearFold.Element.ExtractSeed`, stated through `PlantThenExtract`);
  - `node_size()` and `edge_size()` (`LabeledGraph.Graph.NodeSize` and `EdgeSize`, stated through the constructor's and `AddEdge`'s contracts).
- The private setters `set_fractal` and `set_parent_element` are not modelled, since no code shown here calls them.
- In the `Fractal.h` construction, the parent back-pointer and the `fractal` pointer are represented by containment: a child sits in its parent's `children`.
- `FractalTree.Construct` takes the stop condition as a supplied predicate on the node's coordinates. As written, the call inside the constructor always reaches the default `Element::stop_condition`. That default falls off its end without a return value, and in C++ reaching the end of a function that returns a value is undefined behaviour in itself, so no value is modelled for it.
- `Fractal.h` compile defects, not modelled: `Fractal_t` is never declared, and line 61 assigns to `children_num`, which line 39 declares as a `static const` member.
- `Fold.h` compile defects, not modelled: the class is declared at line 10 with the parameters in the order `<ComputeType, ElemType, SeedType>`, but the member definitions (lines 63-103) use `<ElemType, ComputeType, SeedType>`, so `new ElemType()` at line 76 names the class's `ComputeType`. The member template `Element` is used without template arguments at lines 60 and 76. Any instantiation that compiles still builds an element with depth -1 and a default seed, which is what `LinearFold.Fold.Grow` states.
- The node counts of `fractal_elements_num` and `level_elements_num` differ by one level. They are stated separately, and no total node count is asserted from them.
- `FractalTree.MapInPlace` and `FractalTree.Reduce` fix the element type to unbounded `int`. Overflow, the 32-bit `unsigned` loop counter against a `size_t` bound, and side effects of `f` are not modelled.
- `Fold::compute` is left out: its `size_t i >= 0` loop never ends and it returns no value. The order it evidently intends runs from `elements[depth]` down to `elements[0]`.
- `LinearFold.Fold.Inject` models each element's `inject` override as a function of the element and the incoming seed. What the override does to the element's own state is not modelled.
- `LinearFold.Fold.Inject` requires `0 <= depth <= |elements|` and at least one element. A negative `depth` converts to a huge `size_t` bound and the loop indexes past the end, and `elements[0]` on an empty vector is undefined. As written, a negative `depth` is the only case that occurs (`LinearFold.DepthStaysNegative`), so the model describes the loop the code evidently intends, not any run the interface allows.
- `LinearFold.Fold.Grow` takes a non-negative count. A negative `int` converts to a huge `size_t` count.
- `LinearFold.Fold.Shrink` requires at least depth − nd elements when it accepts the argument, because `pop_back` on an empty vector is undefined.
- Destructors, `delete` and `unique_ptr` ownership are not modelled. `Fold::~Fold` is modelled as `Destroy`, for its effect on the fields.
- `LabeledGraph.Graph.AddNode`: the node vector's `size()` is always 0, because `Graph(size)` only reserves and nothing grows it. So every write that passes the guard indexes at or past `size()`, which is undefined behaviour: with a class `NodeType` it assigns to an object never constructed, and a checked standard library aborts. The model records the write an unchecked library makes into the reserved storage.
- `LabeledGraph.Graph.constructor` takes a non-negative size and models the capacity as exactly `size`. `reserve` may set aside more, and a negative size throws.
- `Graph::print_nodes` (I/O) and the node and edge iterators are not modelled. `find_edge` returns a reference through which callers can write, and those writes are not modelled. `invalid_edge` is a static shared by every graph of one type; here it is a constant of each graph.
- `include/Fractal_static.h`, `include/Reduce.h`, `include/archive/Fractal_impl_poly.h`, `include/Computation.h` and `include/Framework.h` are not part of this model: they hold declarations without bodies, or a copy of the fold.

## Findings

| source | as written | input that shows it | evidently intended | confidence | as-written member | corrected member |
|---|---|---|---|---|---|---|
| include/Fractal_dynamic.h:121-123 | `child_index(p, c)` returns `Arity*p + c`, while a child id ranges over 0 … Arity−1 (line 225) | Arity = 2, p = 0, child id 0: `child_index` gives 0, the root itself, while `first_child(0)` = 1 | `Arity*p + c + 1`, which lands in `[first_child(p), last_child(p)]` | medium: the callers are in `Fractal_dynamic.tpp`, which is not part of this model; not executed | `FractalDynamic.ChildIndexAsWritten` | `FractalDynamic.Fractal.ChildSlot` |
