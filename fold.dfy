/** The linear fold skeleton of Fold.h: a vector of elements that can be
    grown at the back, shrunk back to a given depth, and threaded front to
    back by a seed. */
module LinearFold {

  /** One element of the fold: a seed and a depth. */
  class Element<S> {
    var seed: S
    var depth: int

    /** `Element()`: depth -1 and the value-initialised seed `initial`. */
    constructor (initial: S)
      ensures seed == initial && depth == -1
    {
      seed := initial;
      depth := -1;
    }

    /** `plant_seed(s)`. */
    method PlantSeed(s: S)
      modifies this
      ensures seed == s && depth == old(depth)
    {
      seed := s;
    }

    /** `extract_seed()`. */
    function ExtractSeed(): S
      reads this
    {
      seed
    }
  }

  /** A new element has depth -1, and extracting after planting s gives s. */
  method PlantThenExtract<S>(initial: S, s: S) returns (extracted: S, depth: int)
    ensures extracted == s && depth == -1
  {
    var e := new Element(initial);
    e.PlantSeed(s);
    extracted := e.ExtractSeed();
    depth := e.depth;
  }

  /** What `shrink(newDepth)` leaves: the elements, the depth, and whether the
      argument was accepted (false where the source prints an error). */
  function ShrinkSpec<T>(elements: seq<T>, depth: int, newDepth: int): (seq<T>, int, bool)
    requires 0 <= newDepth <= depth ==> depth - newDepth <= |elements|
  {
    if 0 <= newDepth <= depth then
      (elements[..|elements| - (depth - newDepth)], newDepth, true)
    else
      (elements, depth, false)
  }

  /** A successful shrink removes exactly depth - newDepth elements from the
      back; a rejected one changes nothing; repeating a shrink removes
      nothing more. */
  lemma ShrinkIdempotent<T>(elements: seq<T>, depth: int, newDepth: int)
    requires 0 <= newDepth <= depth ==> depth - newDepth <= |elements|
    ensures var (es, d, ok) := ShrinkSpec(elements, depth, newDepth);
            && (ok <==> 0 <= newDepth <= depth)
            && (ok ==> d == newDepth && |es| == |elements| - (depth - newDepth)
                       && es == elements[..|es|])
            && (!ok ==> es == elements && d == depth)
            && ShrinkSpec(es, d, newDepth).0 == es
            && ShrinkSpec(es, d, newDepth).1 == d
  {
  }

  class Fold<S> {
    var depth: int
    var elements: seq<Element<S>>
    /** The value `SeedType()` gives a new element's seed. */
    const seedDefault: S

    /** `Fold()`: no elements, depth -1. */
    constructor (seedDefault: S)
      ensures elements == [] && depth == -1 && this.seedDefault == seedDefault
    {
      elements := [];
      depth := -1;
      this.seedDefault := seedDefault;
    }

    /** `~Fold()`: depth back to -1 and no elements. */
    method Destroy()
      modifies this
      ensures depth == -1 && elements == []
    {
      depth := -1;
      elements := [];
    }

    /** `grow(k)`: k new elements at the back; the existing ones and the
        depth field are left as they were. */
    method Grow(k: nat)
      modifies this
      ensures depth == old(depth)
      ensures |elements| == |old(elements)| + k
      ensures elements[..|old(elements)|] == old(elements)
      ensures forall j :: |old(elements)| <= j < |elements| ==>
                fresh(elements[j]) && elements[j].depth == -1 && elements[j].seed == seedDefault
    {
      var i := k;
      while i > 0
        invariant 0 <= i <= k
        invariant depth == old(depth)
        invariant |elements| == |old(elements)| + (k - i)
        invariant elements[..|old(elements)|] == old(elements)
        invariant forall j :: |old(elements)| <= j < |elements| ==>
                    fresh(elements[j]) && elements[j].depth == -1 && elements[j].seed == seedDefault
      {
        var elem := new Element(seedDefault);
        elements := elements + [elem];
        i := i - 1;
      }
    }

    /** `shrink(newDepth)`: with depth >= newDepth >= 0, pop from the back
        until depth == newDepth; otherwise report an error and change
        nothing. */
    method Shrink(newDepth: int) returns (ok: bool)
      requires 0 <= newDepth <= depth ==> depth - newDepth <= |elements|
      modifies this
      ensures (elements, depth, ok) == ShrinkSpec(old(elements), old(depth), newDepth)
      ensures ok <==> 0 <= newDepth <= old(depth)
      ensures ok ==> depth == newDepth &&
                     elements == old(elements)[..|old(elements)| - (old(depth) - newDepth)]
      ensures !ok ==> depth == old(depth) && elements == old(elements)
    {
      if depth >= newDepth && newDepth >= 0 {
        while depth > newDepth
          invariant newDepth <= depth <= old(depth)
          invariant |elements| == |old(elements)| - (old(depth) - depth)
          invariant elements == old(elements)[..|elements|]
        {
          elements := elements[..|elements| - 1];
          depth := depth - 1;
        }
        ok := true;
      } else {
        ok := false;
      }
    }

    /** `inject(seed)`: element 0 receives the caller's seed, element i
        (1 <= i < depth) receives what element i-1 returned. `hook` is the
        elements' `inject` override; the result lists the seeds handed to
        the elements, in order. */
    method Inject(seed: S, hook: (Element<S>, S) -> S) returns (received: seq<S>)
      requires |elements| >= 1 && 0 <= depth <= |elements|
      ensures |received| == if depth <= 1 then 1 else depth
      ensures received[0] == seed
      ensures forall i :: 1 <= i < |received| ==>
                received[i] == hook(elements[i - 1], received[i - 1])
    {
      received := [seed];
      var s := hook(elements[0], seed);
      var i := 1;
      while i < depth
        invariant 1 <= i <= if depth <= 1 then 1 else depth
        invariant |received| == i && received[0] == seed
        invariant forall j :: 1 <= j < i ==> received[j] == hook(elements[j - 1], received[j - 1])
        invariant s == hook(elements[i - 1], received[i - 1])
      {
        received := received + [s];
        s := hook(elements[i], s);
        i := i + 1;
      }
    }
  }

  /** As written, no operation ever raises depth above -1: after
      construction, grow(k) and any shrink, depth is still -1, so the
      requires of `Inject` (0 <= depth) is never met, and `inject`'s loop
      bound `i < depth` compares against -1 converted to the largest
      `size_t`. */
  method DepthStaysNegative<S>(seedDefault: S, k: nat, newDepth: int) returns (depth: int, injectable: bool)
    ensures depth == -1 && !injectable
  {
    var f := new Fold(seedDefault);
    f.Grow(k);
    var _ := f.Shrink(newDepth);
    depth := f.depth;
    var count := |f.elements|;
    injectable := count >= 1 && 0 <= depth <= count;
  }

  /** As written, grow never sets depth: on a new fold, grow(k) followed by
      shrink(newDepth) is rejected for every newDepth and keeps all k
      elements. */
  method GrowThenShrink<S>(seedDefault: S, k: nat, newDepth: int) returns (ok: bool, count: nat)
    ensures !ok && count == k
  {
    var f := new Fold(seedDefault);
    f.Grow(k);
    ok := f.Shrink(newDepth);
    count := |f.elements|;
  }
}
