/** The balanced (array) layout of the dynamic Fractal: a complete tree of
    branching factor `arity` stored level by level in one flat array, addressed
    by closed-form index arithmetic and by the table `geoProgression` of
    geometric sums; plus the node coordinates `ElementInfo` and the default
    hooks and accessors of `Element`. */
module FractalDynamic {
  import opened Arith

  /** The template argument Arity; the closed forms divide by Arity - 1. */
  type Arity = a: int | a >= 2 witness 2

  /** Balanced (array layout) or unbalanced (pointer layout). */
  datatype Type = Balanced | Unbalanced

  /** Sequential or parallel execution. */
  datatype ImplType = Sequential | Parallel

  datatype Option<T> = None | Some(value: T)

  /** Structural coordinates of one node. `childId` is `None` where the
      source leaves the field uninitialised. */
  datatype ElementInfo = ElementInfo(depth: int, level: int, childId: Option<int>, index: int)

  /** The default constructor: no position yet. */
  function DefaultInfo(): ElementInfo
  {
    ElementInfo(-1, -1, None, -1)
  }

  /** The copy constructor copies depth, level and index, not the child id. */
  function CopyInfo(ref: ElementInfo): ElementInfo
  {
    ElementInfo(ref.depth, ref.level, None, ref.index)
  }

  /** `check()`: true when the process goes on, false where the source
      prints an error and exits. */
  function Check(info: ElementInfo): bool
  {
    info.level != 0
  }

  /** The default coordinates pass `check()`; a copy keeps depth, level and
      index, loses the child id, and passes `check()` exactly when the
      original does. */
  lemma CopyInfoFacts(ref: ElementInfo)
    ensures Check(DefaultInfo())
    ensures DefaultInfo().depth == -1 && DefaultInfo().level == -1 && DefaultInfo().index == -1
    ensures CopyInfo(ref).depth == ref.depth && CopyInfo(ref).level == ref.level
    ensures CopyInfo(ref).index == ref.index && CopyInfo(ref).childId == None
    ensures Check(CopyInfo(ref)) == Check(ref)
    ensures !Check(ref) <==> ref.level == 0
    ensures CopyInfo(CopyInfo(ref)) == CopyInfo(ref)
  {
  }

  class Fractal {
    const arity: Arity
    var kind: Type
    var implType: ImplType
    /** Level of the root (set by grow). */
    var topLevel: int
    /** geoProgression[i] is the number of elements at depths 0 .. i-1 (set by grow). */
    var geoProgression: seq<int>

    /** The fractal as grow leaves it: grow's body is not part of this model,
        so the level count and the table are given. */
    constructor (arity: Arity, kind: Type, implType: ImplType, topLevel: int, geoProgression: seq<int>)
      ensures this.arity == arity && this.kind == kind && this.implType == implType
      ensures this.topLevel == topLevel && this.geoProgression == geoProgression
    {
      this.arity := arity;
      this.kind := kind;
      this.implType := implType;
      this.topLevel := topLevel;
      this.geoProgression := geoProgression;
    }

    method SetType(t: Type)
      modifies this
      ensures kind == t && GetType() == t
      ensures implType == old(implType) && topLevel == old(topLevel)
      ensures geoProgression == old(geoProgression)
    {
      kind := t;
    }

    function GetType(): Type
      reads this
    {
      kind
    }

    method SetImplType(t: ImplType)
      modifies this
      ensures implType == t && GetImplType() == t
      ensures kind == old(kind) && topLevel == old(topLevel)
      ensures geoProgression == old(geoProgression)
    {
      implType := t;
    }

    function GetImplType(): ImplType
      reads this
    {
      implType
    }

    /** `geo_sum(i)`: (Arity^i - 1) / (Arity - 1). For a negative i the double
        quotient lies strictly between -1 and 0 and truncates to 0. */
    function GeoSum(i: int): (r: nat)
      ensures i <= 0 ==> r == 0
      ensures i >= 0 ==> r == GeoSeries(arity, i)
    {
      if i < 0 then 0
      else
        GeoSeriesQuotient(arity, i);
        (Pow(arity, i) - 1) / (arity - 1)
    }

    /** `depth_elements_num(d)`: Arity^d; a negative depth gives a fraction
        that truncates to 0. */
    function DepthElementsNum(d: int): (r: nat)
      ensures d < 0 ==> r == 0
      ensures d >= 0 ==> r == GeoSum(d + 1) - GeoSum(d) && r >= 1
    {
      if d < 0 then 0 else Pow(arity, d)
    }

    /** `level_elements_num(lvl)`: Arity^(top_level - lvl), 0 above the root. */
    function LevelElementsNum(lvl: int): (r: nat)
      reads this
      ensures r == DepthElementsNum(topLevel - lvl)
    {
      if lvl > topLevel then 0 else Pow(arity, topLevel - lvl)
    }

    /** `fractal_elements_num()`: the table entry for top_level, or the closed
        form when the table is empty. */
    function FractalElementsNum(): (r: int)
      reads this
      requires |geoProgression| > 0 ==> 0 <= topLevel < |geoProgression|
      ensures TableMatches() ==> r == GeoSum(topLevel)
    {
      if |geoProgression| > 0 then geoProgression[topLevel]
      else if topLevel < 0 then 0
      else (GeoSeriesQuotient(arity, topLevel); (Pow(arity, topLevel) - 1) / (arity - 1))
    }

    /** `first_child(p)`. */
    function FirstChild(parentIndex: nat): (r: nat)
      ensures r > parentIndex
    {
      arity * parentIndex + 1
    }

    /** `last_child(p)`: the child range of every parent holds exactly Arity indices. */
    function LastChild(parentIndex: nat): (r: nat)
      ensures r - FirstChild(parentIndex) + 1 == arity
    {
      arity * parentIndex + arity
    }

    /** `child_index(p, c)` as written: Arity * p + c. The ids that land in
        the child range of p are 1 .. Arity; id 0 lands just before it. */
    function ChildIndex(parentIndex: nat, childId: int): (r: int)
      ensures 1 <= childId <= arity <==> FirstChild(parentIndex) <= r <= LastChild(parentIndex)
      ensures childId == 0 ==> r + 1 == FirstChild(parentIndex)
    {
      arity * parentIndex + childId
    }

    /** The slot of child number `childId` (0 .. Arity-1) of parent `p`:
        Arity * p + childId + 1, the correction of `ChildIndex`. */
    function ChildSlot(parentIndex: nat, childId: int): (r: int)
      ensures 0 <= childId < arity ==> FirstChild(parentIndex) <= r <= LastChild(parentIndex)
      ensures r == ChildIndex(parentIndex, childId + 1)
    {
      arity * parentIndex + childId + 1
    }

    /** The table holds the geometric sums the closed form defines. */
    ghost predicate TableMatches()
      reads this
    {
      forall i :: 0 <= i < |geoProgression| ==> geoProgression[i] == GeoSum(i)
    }

    /** `depth_start_index(d)`. */
    function DepthStartIndex(d: int): (r: int)
      reads this
      requires 0 <= d < |geoProgression|
      ensures TableMatches() ==> r == GeoSum(d)
    {
      geoProgression[d]
    }

    /** `depth_end_index(d)`: the range of depth d holds Arity^d indices and
        the range of depth d+1 starts right after it; d = -1 reads entry 0
        and gives -1, just before the root. */
    function DepthEndIndex(d: int): (r: int)
      reads this
      requires 0 <= d + 1 < |geoProgression|
      ensures TableMatches() && d >= 0 ==> r - DepthStartIndex(d) + 1 == DepthElementsNum(d)
      ensures TableMatches() ==> r + 1 == DepthStartIndex(d + 1)
      ensures TableMatches() && d == -1 ==> r == -1
    {
      geoProgression[d + 1] - 1
    }

    /** `level_start_index(lvl)`: level lvl is depth top_level - lvl. */
    function LevelStartIndex(lvl: int): (r: int)
      reads this
      requires 0 <= topLevel - lvl < |geoProgression|
      ensures TableMatches() ==> r == GeoSum(topLevel - lvl)
    {
      DepthStartIndex(topLevel - lvl)
    }

    /** `level_end_index(lvl)`: the range of level lvl holds
        `level_elements_num(lvl)` indices; top_level + 1, the level
        `index_to_level` gives past the table, ends at -1. */
    function LevelEndIndex(lvl: int): (r: int)
      reads this
      requires 0 <= topLevel - lvl + 1 < |geoProgression|
      ensures TableMatches() && lvl <= topLevel ==> r - LevelStartIndex(lvl) + 1 == LevelElementsNum(lvl)
      ensures TableMatches() && lvl == topLevel + 1 ==> r == -1
    {
      DepthEndIndex(topLevel - lvl)
    }

    /** d is what `index_to_depth(index)` returns: one less than the least
        i >= 1 with index < geoProgression[i], or -1 when there is none. */
    ghost predicate IsDepthOf(index: int, d: int)
      reads this
    {
      || (d == -1 && forall i :: 1 <= i < |geoProgression| ==> index >= geoProgression[i])
      || (0 <= d && d + 1 < |geoProgression| && index < geoProgression[d + 1]
          && forall i :: 1 <= i <= d ==> index >= geoProgression[i])
    }

    /** `index_to_depth(index)`: an early-return scan of the table. */
    method IndexToDepth(index: int) returns (d: int)
      ensures IsDepthOf(index, d)
      ensures d == -1 || (0 <= d && d + 1 < |geoProgression|)
    {
      var i := 1;
      while i < |geoProgression|
        invariant 1 <= i && (i <= |geoProgression| || i == 1)
        invariant forall j :: 1 <= j < i ==> index >= geoProgression[j]
      {
        if index < geoProgression[i] {
          return i - 1;
        }
        i := i + 1;
      }
      return -1;
    }

    /** `index_to_level(index)`: top_level minus the depth; within the table
        the index lies in the range of the level returned. */
    method IndexToLevel(index: int) returns (lvl: int)
      ensures IsDepthOf(index, topLevel - lvl)
      ensures TableMatches() && index >= 0 && lvl != topLevel + 1 ==>
                0 <= topLevel - lvl && topLevel - lvl + 1 < |geoProgression| &&
                LevelStartIndex(lvl) <= index <= LevelEndIndex(lvl)
    {
      var d := IndexToDepth(index);
      lvl := topLevel - d;
      if TableMatches() && index >= 0 && d != -1 {
        DepthRange(this, index, d);
      }
    }
  }

  /** The first two table entries, and the recurrence that builds the table:
      geo_sum(i+1) == Arity * geo_sum(i) + 1. */
  lemma GeoSumRecurrence(f: Fractal, i: nat)
    ensures f.GeoSum(0) == 0 && f.GeoSum(1) == 1
    ensures f.GeoSum(i + 1) == f.arity * f.GeoSum(i) + 1
  {
    GeoSeriesStep(f.arity, i);
    GeoSeriesStep(f.arity, 0);
  }

  /** Geometric sums grow with their argument. */
  lemma GeoSumMonotone(f: Fractal, i: int, j: int)
    requires i <= j
    ensures f.GeoSum(i) <= f.GeoSum(j)
  {
    if 0 <= i {
      GeoSeriesMonotone(f.arity, i, j);
    }
  }

  /** `fractal_elements_num()` counts the depths 0 .. top_level-1 only: adding
      the Arity^top_level elements of level 0 gives the geometric sum of
      top_level + 1 terms. */
  lemma FractalElementsPlusLeaves(f: Fractal)
    requires f.topLevel >= 0 && f.TableMatches()
    requires |f.geoProgression| > 0 ==> f.topLevel < |f.geoProgression|
    ensures f.FractalElementsNum() + f.LevelElementsNum(0) == f.GeoSum(f.topLevel + 1)
  {
  }

  /** As written, `child_index(p, 1)` and `child_index(p, Arity)` are the first
      and last child, so a child id in 0 .. Arity-1 is off by one:
      `child_index(p, 0)` lies before the child range, and for the root it is
      the root itself. */
  lemma ChildIndexAsWritten(f: Fractal, p: nat)
    ensures f.ChildIndex(p, 1) == f.FirstChild(p)
    ensures f.ChildIndex(p, f.arity) == f.LastChild(p)
    ensures f.ChildIndex(p, 0) < f.FirstChild(p)
    ensures f.ChildIndex(0, 0) == 0
  {
  }

  /** Consecutive parents have adjacent child ranges, and distinct
      (parent, child id) pairs get distinct slots. */
  lemma ChildSlotsDistinct(f: Fractal, p: nat, c: int, q: nat, e: int)
    requires 0 <= c < f.arity && 0 <= e < f.arity
    requires f.ChildSlot(p, c) == f.ChildSlot(q, e)
    ensures p == q && c == e
    ensures f.LastChild(p) + 1 == f.FirstChild(p + 1)
  {
    SlotsDistinct(f.arity, p, c, q, e);
  }

  /** The integer fact behind ChildSlotsDistinct. */
  lemma SlotsDistinct(a: int, p: nat, c: int, q: nat, e: int)
    requires a >= 2 && 0 <= c < a && 0 <= e < a
    requires a * p + c + 1 == a * q + e + 1
    ensures p == q && c == e
    ensures a * p + a + 1 == a * (p + 1) + 1
  {
    assert a * (p + 1) == a * p + a;
    assert a * (q + 1) == a * q + a;
    if p < q {
      MulMonotone(a, p + 1, q);
      assert false;
    } else if q < p {
      MulMonotone(a, q + 1, p);
      assert false;
    }
  }

  /** Within a matching table, the depth returned for a non-negative index
      names a depth range that holds it. */
  lemma DepthRange(f: Fractal, index: int, d: int)
    requires f.TableMatches() && index >= 0
    requires f.IsDepthOf(index, d) && d != -1
    ensures 0 <= d && d + 1 < |f.geoProgression|
    ensures f.DepthStartIndex(d) <= index <= f.DepthEndIndex(d)
  {
    if d == 0 {
      assert f.geoProgression[0] == f.GeoSum(0) == 0;
    } else {
      assert index >= f.geoProgression[d];
    }
  }

  /** Conversely, an index in the range of depth d maps to depth d. */
  lemma RangeGivesDepth(f: Fractal, index: int, d: int)
    requires f.TableMatches()
    requires 0 <= d && d + 1 < |f.geoProgression|
    requires f.DepthStartIndex(d) <= index <= f.DepthEndIndex(d)
    ensures f.IsDepthOf(index, d)
  {
    forall i | 1 <= i <= d
      ensures index >= f.geoProgression[i]
    {
      GeoSumMonotone(f, i, d);
    }
  }

  /** The scan's result is determined by the index: at most one depth
      satisfies `IsDepthOf`. */
  lemma IsDepthOfUnique(f: Fractal, index: int, d: int, e: int)
    requires f.IsDepthOf(index, d) && f.IsDepthOf(index, e)
    ensures d == e
  {
  }

  /** The scan returns -1 exactly when the index is past the last table entry. */
  lemma PastTable(f: Fractal, index: int)
    requires f.TableMatches() && |f.geoProgression| >= 2
    ensures f.IsDepthOf(index, -1) <==> index >= f.geoProgression[|f.geoProgression| - 1]
  {
    var n := |f.geoProgression|;
    if index >= f.geoProgression[n - 1] {
      forall i | 1 <= i < n
        ensures index >= f.geoProgression[i]
      {
        GeoSumMonotone(f, i, n - 1);
      }
    }
  }

  /** Depth ranges of different depths are disjoint and ordered. */
  lemma DepthRangesDisjoint(f: Fractal, d1: int, d2: int)
    requires f.TableMatches()
    requires 0 <= d1 < d2 && d2 + 1 < |f.geoProgression|
    ensures f.DepthEndIndex(d1) < f.DepthStartIndex(d2)
  {
    GeoSumMonotone(f, d1 + 1, d2);
  }

  /** The integer fact behind ChildrenOneDepthDown: with g1 = a*g0 + 1 and
      g2 = a*g1 + 1, a parent in [g0, g1) has its children in [g1, g2). */
  lemma ChildBounds(a: int, g0: int, g1: int, g2: int, p: int, k: int)
    requires a >= 2 && g1 == a * g0 + 1 && g2 == a * g1 + 1
    requires g0 <= p <= g1 - 1 && 0 <= k < a
    ensures g1 <= a * p + k + 1 <= g2 - 1
  {
    MulMonotone(a, g0, p);
    MulMonotone(a, p, g1 - 1);
    assert a * (g1 - 1) == a * g1 - a;
  }

  /** Every child of a parent at depth d sits at depth d + 1. */
  lemma ChildrenOneDepthDown(f: Fractal, p: nat, d: int, c: int)
    requires f.TableMatches()
    requires 0 <= d && d + 2 < |f.geoProgression|
    requires f.DepthStartIndex(d) <= p <= f.DepthEndIndex(d)
    requires 0 <= c < f.arity
    ensures f.IsDepthOf(f.ChildSlot(p, c), d + 1)
    ensures f.IsDepthOf(f.FirstChild(p), d + 1) && f.IsDepthOf(f.LastChild(p), d + 1)
  {
    ChildOneDepthDown(f, p, d, c);
    ChildOneDepthDown(f, p, d, 0);
    ChildOneDepthDown(f, p, d, f.arity - 1);
  }

  /** One child at a time. */
  lemma ChildOneDepthDown(f: Fractal, p: nat, d: int, c: int)
    requires f.TableMatches()
    requires 0 <= d && d + 2 < |f.geoProgression|
    requires f.DepthStartIndex(d) <= p <= f.DepthEndIndex(d)
    requires 0 <= c < f.arity
    ensures f.IsDepthOf(f.ChildSlot(p, c), d + 1)
  {
    var g := f.geoProgression;
    GeoSumRecurrence(f, d);
    GeoSumRecurrence(f, d + 1);
    ChildBounds(f.arity, g[d], g[d + 1], g[d + 2], p, c);
    RangeGivesDepth(f, f.ChildSlot(p, c), d + 1);
  }

  /** One node of the dynamic Fractal with its default customization hooks
      and accessors. */
  class Element<S(0)> {
    var seed: S
    var info: ElementInfo
    var fractal: Fractal?
    var parent: Element?<S>
    var children: seq<Element<S>>

    /** `growth_stop_condition()`: by default growth never stops early. */
    function GrowthStopCondition(): (stop: bool)
      ensures !stop
    {
      false
    }

    function ElementInfoOf(): ElementInfo
      reads this
    {
      info
    }

    function GetParentPtr(): Element?<S>
      reads this
    {
      parent
    }

    /** `get_child_ptr(i)`: the vector is indexed without a bounds check. */
    function GetChildPtr(i: int): (c: Element<S>)
      reads this
      requires 0 <= i < |children|
      ensures c in children
    {
      children[i]
    }

    /** `has_children()`: the child vector is not empty. */
    function HasChildren(): (b: bool)
      reads this
      ensures b <==> children != []
    {
      |children| > 0
    }

    function GetFractal(): Fractal?
      reads this
    {
      fractal
    }

    /** `get_fractal_type()`: the owning fractal's type, unbalanced when detached. */
    function GetFractalType(): (t: Type)
      reads this, fractal
      ensures fractal == null ==> t == Unbalanced
      ensures fractal != null ==> t == fractal.GetType()
    {
      if fractal != null then fractal.GetType() else Unbalanced
    }

    /** `get_fractal_impl_type()`: the owning fractal's strategy, sequential when detached. */
    function GetFractalImplType(): (t: ImplType)
      reads this, fractal
      ensures fractal == null ==> t == Sequential
      ensures fractal != null ==> t == fractal.GetImplType()
    {
      if fractal != null then fractal.GetImplType() else Sequential
    }

    function GetSeed(): S
      reads this
    {
      seed
    }

    /** `plant_seed(s)`: `get_seed()` returns s afterwards; nothing else changes. */
    method PlantSeed(s: S)
      modifies this
      ensures GetSeed() == s
      ensures info == old(info) && fractal == old(fractal)
      ensures parent == old(parent) && children == old(children)
    {
      seed := s;
    }
  }

  /** Setting the fractal's type and strategy is what its elements then report. */
  method SetTypesSeenByElement<S(0)>(f: Fractal, e: Element<S>, t: Type, it: ImplType)
    requires e.fractal == f
    modifies f
    ensures e.GetFractalType() == t && e.GetFractalImplType() == it
  {
    f.SetType(t);
    f.SetImplType(it);
  }
}
