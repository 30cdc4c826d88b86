/** The recursive Fractal of Fractal.h: constructing an element with a
    positive level and no stop condition builds Arity children one level
    down, each of which builds its own children in turn; plus the array
    helpers `map` and `reduce`. */
module FractalTree {
  import opened Arith

  /** Depth from the root and levels left to the leaves. */
  datatype ElementInfo = ElementInfo(depth: int, level: int)

  /** The default constructor: no position yet. */
  const DefaultInfo := ElementInfo(-1, -1)

  /** `check()`: true when the process goes on, false where the source
      prints an error and exits. */
  function Check(info: ElementInfo): bool
  {
    info.level != 0
  }

  /** The default coordinates are depth -1 and level -1 and pass `check()`;
      `check()` stops the process exactly at level 0. */
  lemma CheckFacts(info: ElementInfo)
    ensures DefaultInfo.depth == -1 && DefaultInfo.level == -1 && Check(DefaultInfo)
    ensures !Check(info) <==> info.level == 0
  {
  }

  /** A node with the children it owns; a child's parent is the node that
      holds it. */
  datatype Element = Element(info: ElementInfo, children: seq<Element>)

  /** The coordinates every child of a node receives. */
  function ChildInfo(info: ElementInfo): ElementInfo
  {
    ElementInfo(info.depth + 1, info.level - 1)
  }

  /** Termination measure of construction: the levels left, if positive. */
  function LevelsLeft(info: ElementInfo): nat
  {
    if info.level > 0 then info.level else 0
  }

  /** The tree the constructor builds from `info`, for a stop condition
      given as a predicate on the node's coordinates. */
  function Grown(arity: nat, info: ElementInfo, stop: ElementInfo -> bool): Element
    decreases LevelsLeft(info)
  {
    if info.level > 0 && !stop(info) then
      var child := Grown(arity, ChildInfo(info), stop);
      Element(info, seq(arity, _ => child))
    else
      Element(info, [])
  }

  /** The constructor `Element(fractal, info, parent)`: Arity children, in
      order i = 0 .. Arity-1, when the level is positive and the stop
      condition does not fire; none otherwise. */
  method Construct(arity: nat, info: ElementInfo, stop: ElementInfo -> bool) returns (e: Element)
    ensures e == Grown(arity, info, stop)
    ensures e.info == info
    ensures |e.children| == if info.level > 0 && !stop(info) then arity else 0
    ensures forall i :: 0 <= i < |e.children| ==> e.children[i].info == ChildInfo(info)
    decreases LevelsLeft(info)
  {
    var children: seq<Element> := [];
    if info.level > 0 && !stop(info) {
      var i := 0;
      while i < arity
        invariant 0 <= i <= arity
        invariant |children| == i
        invariant forall j :: 0 <= j < i ==> children[j] == Grown(arity, ChildInfo(info), stop)
      {
        var childInfo := ElementInfo(info.depth + 1, info.level - 1);
        var child := Construct(arity, childInfo, stop);
        children := children + [child];
        i := i + 1;
      }
    }
    e := Element(info, children);
  }

  /** p holds at every node of the tree. */
  ghost predicate Everywhere(e: Element, p: Element -> bool)
  {
    p(e) && forall i :: 0 <= i < |e.children| ==> Everywhere(e.children[i], p)
  }

  /** Number of nodes of a tree. */
  function Size(e: Element): nat
  {
    1 + SizeAll(e.children)
  }

  function SizeAll(es: seq<Element>): nat
  {
    if es == [] then 0 else Size(es[0]) + SizeAll(es[1..])
  }

  /** depth + level is the same at every node of a constructed tree. */
  lemma {:induction false} DepthPlusLevelConstant(arity: nat, info: ElementInfo, stop: ElementInfo -> bool)
    ensures Everywhere(Grown(arity, info, stop),
                       (n: Element) => n.info.depth + n.info.level == info.depth + info.level)
    decreases LevelsLeft(info)
  {
    if info.level > 0 && !stop(info) {
      DepthPlusLevelConstant(arity, ChildInfo(info), stop);
    }
  }

  /** Every node that has children passes `check()`. */
  lemma {:induction false} ParentsPassCheck(arity: nat, info: ElementInfo, stop: ElementInfo -> bool)
    ensures Everywhere(Grown(arity, info, stop), (n: Element) => n.children != [] ==> Check(n.info))
    decreases LevelsLeft(info)
  {
    if info.level > 0 && !stop(info) {
      ParentsPassCheck(arity, ChildInfo(info), stop);
    }
  }

  /** With no early stop, a tree built at a level L >= 0 has Arity children at
      every inner node and its leaves exactly at level 0. */
  lemma {:induction false} LeavesAtLevelZero(arity: nat, info: ElementInfo, stop: ElementInfo -> bool)
    requires arity >= 1 && info.level >= 0
    requires forall i :: !stop(i)
    ensures Everywhere(Grown(arity, info, stop),
                       (n: Element) => (n.children == [] <==> n.info.level == 0) &&
                            (n.children == [] || |n.children| == arity))
    decreases LevelsLeft(info)
  {
    if info.level > 0 {
      LeavesAtLevelZero(arity, ChildInfo(info), stop);
    }
  }

  /** The size of n copies of one tree. */
  lemma {:induction false} SizeAllCopies(n: nat, c: Element)
    ensures SizeAll(seq(n, _ => c)) == n * Size(c)
  {
    if n > 0 {
      var cs := seq(n, _ => c);
      assert cs[1..] == seq(n - 1, _ => c);
      SizeAllCopies(n - 1, c);
    }
  }

  /** With no early stop, a tree built at level L holds 1 + A + ... + A^L nodes. */
  lemma {:induction false} GrownSizeSeries(arity: nat, info: ElementInfo, stop: ElementInfo -> bool)
    requires info.level >= 0
    requires forall i :: !stop(i)
    ensures Size(Grown(arity, info, stop)) == GeoSeries(arity, info.level + 1)
    decreases LevelsLeft(info)
  {
    if info.level > 0 {
      var child := Grown(arity, ChildInfo(info), stop);
      GrownSizeSeries(arity, ChildInfo(info), stop);
      SizeAllCopies(arity, child);
      GeoSeriesStep(arity, info.level);
    } else {
      assert GeoSeries(arity, 1) == 1;
    }
  }

  /** ... that is, (A^(L+1) - 1) / (A - 1) nodes. */
  lemma GrownSize(arity: nat, info: ElementInfo, stop: ElementInfo -> bool)
    requires arity >= 2 && info.level >= 0
    requires forall i :: !stop(i)
    ensures Size(Grown(arity, info, stop)) == (Pow(arity, info.level + 1) - 1) / (arity - 1)
  {
    GrownSizeSeries(arity, info, stop);
    GeoSeriesQuotient(arity, info.level + 1);
  }

  /** `map(f, array, n)`: array[i] := f(array[i]) for every i < n. */
  method MapInPlace(f: int -> int, a: array<int>, n: nat)
    requires n <= a.Length
    modifies a
    ensures forall i :: 0 <= i < n ==> a[i] == f(old(a[i]))
    ensures forall i :: n <= i < a.Length ==> a[i] == old(a[i])
  {
    var i := 0;
    while i < n
      invariant 0 <= i <= n
      invariant forall j :: 0 <= j < i ==> a[j] == f(old(a[j]))
      invariant forall j :: i <= j < a.Length ==> a[j] == old(a[j])
    {
      a[i] := f(a[i]);
      i := i + 1;
    }
  }

  /** The sum s[0] + ... + s[|s|-1], added from the left. */
  function Sum(s: seq<int>): int
  {
    if s == [] then 0 else Sum(s[..|s| - 1]) + s[|s| - 1]
  }

  /** A sum splits over a concatenation, so a reduction can be cut into parts. */
  lemma {:induction false} SumConcat(s: seq<int>, t: seq<int>)
    ensures Sum(s + t) == Sum(s) + Sum(t)
    decreases |t|
  {
    if t != [] {
      assert (s + t)[..|s + t| - 1] == s + t[..|t| - 1];
      SumConcat(s, t[..|t| - 1]);
    } else {
      assert s + t == s;
    }
  }

  /** `reduce(array, n)`: the sum of the first n entries, 0 when n == 0. */
  method Reduce(a: array<int>, n: nat) returns (r: int)
    requires n <= a.Length
    ensures r == Sum(a[..n])
    ensures n == 0 ==> r == 0
  {
    r := 0;
    var i := 0;
    while i < n
      invariant 0 <= i <= n
      invariant r == Sum(a[..i])
    {
      assert a[..i + 1][..i] == a[..i];
      r := r + a[i];
      i := i + 1;
    }
  }
}
