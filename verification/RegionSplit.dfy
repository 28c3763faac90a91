/**
 * `splitCubeRegion` of packages/core/src/gameRegion/regionHelper.ts on the `CubeRegion` of
 * gameRegion.ts with integer corners. A region to split has its lower corner first, since
 * `getBounds` does not put the corners in order.
 */
module RegionSplit {
  import opened Arithmetic

  datatype CubeRegion = CubeRegion(pos1: Vector3, pos2: Vector3)
  {
    predicate Ordered() { pos1.x <= pos2.x && pos1.y <= pos2.y && pos1.z <= pos2.z }

    function GetCapacity(): int {
      Abs((Max(pos1.x, pos2.x) - Min(pos1.x, pos2.x) + 1)
          * (Max(pos1.y, pos2.y) - Min(pos1.y, pos2.y) + 1)
          * (Max(pos1.z, pos2.z) - Min(pos1.z, pos2.z) + 1))
    }

    predicate IsBlockInside(loc: Vector3) {
      && Min(pos1.x, pos2.x) <= loc.x <= Max(pos1.x, pos2.x)
      && Min(pos1.y, pos2.y) <= loc.y <= Max(pos1.y, pos2.y)
      && Min(pos1.z, pos2.z) <= loc.z <= Max(pos1.z, pos2.z)
    }
  }

  const MAX_CAPACITY := 32767

  datatype Axis = X | Y | Z

  function Coordinate(v: Vector3, a: Axis): int { match a case X => v.x case Y => v.y case Z => v.z }

  function With(v: Vector3, a: Axis, n: int): Vector3 {
    match a case X => v.(x := n) case Y => v.(y := n) case Z => v.(z := n)
  }

  function Side(r: CubeRegion, a: Axis): int { Coordinate(r.pos2, a) - Coordinate(r.pos1, a) + 1 }

  /** The first of the longest sides; a side of one block cannot be split. */
  function LongestAxis(r: CubeRegion): Axis {
    if Side(r, X) >= Side(r, Y) && Side(r, X) >= Side(r, Z) then X else if Side(r, Y) >= Side(r, Z) then Y else Z
  }

  /** The middle of the region along an axis: the first block of the second half. */
  function Middle(r: CubeRegion, a: Axis): int { Coordinate(r.pos1, a) + Side(r, a) / 2 }

  function FirstHalf(r: CubeRegion, a: Axis): CubeRegion { CubeRegion(r.pos1, With(r.pos2, a, Middle(r, a) - 1)) }

  function SecondHalf(r: CubeRegion, a: Axis): CubeRegion { CubeRegion(With(r.pos1, a, Middle(r, a)), r.pos2) }

  // ---------- one split ----------

  lemma Capacity(r: CubeRegion)
    requires r.Ordered()
    ensures r.GetCapacity() == Side(r, X) * Side(r, Y) * Side(r, Z) >= 1
  {
    Positive(Side(r, X), Side(r, Y));
    Positive(Side(r, X) * Side(r, Y), Side(r, Z));
  }

  lemma Positive(a: int, b: int)
    requires a >= 1 && b >= 1
    ensures a * b >= 1
  {
  }

  /** A side of `d` is cut into `m` and `d - m`, neither less than a third of it. */
  lemma CutProduct(d: int, m: int, rest: int)
    requires d >= 2 && m == d / 2 && rest >= 1
    ensures m * rest + (d - m) * rest == d * rest
    ensures 3 * (m * rest) >= d * rest && 3 * ((d - m) * rest) >= d * rest
    ensures m * rest >= 1 && (d - m) * rest >= 1
  {
    assert 3 * m >= d && 3 * (d - m) >= d;
    Monotone(d, 3 * m, rest);
    Monotone(d, 3 * (d - m), rest);
    Positive(m, rest);
    Positive(d - m, rest);
    assert m * rest + (d - m) * rest == d * rest;
  }

  lemma Monotone(a: int, b: int, c: int)
    requires a <= b && c >= 0
    ensures a * c <= b * c
  {
  }

  lemma Rearranged(x: int, y: int, z: int)
    ensures x * y * z == x * (y * z) == y * (x * z) == z * (x * y)
  {
    assert x * y * z == x * (y * z);
    assert y * (x * z) == x * (y * z);
    assert z * (x * y) == x * y * z;
  }

  /** The halves are regions, share their blocks out, and neither is less than a third. */
  lemma Halves(r: CubeRegion, a: Axis)
    requires r.Ordered() && Side(r, a) >= 2
    ensures var p, q := FirstHalf(r, a), SecondHalf(r, a);
      && p.Ordered() && q.Ordered()
      && p.GetCapacity() + q.GetCapacity() == r.GetCapacity()
      && 3 * p.GetCapacity() >= r.GetCapacity() && 3 * q.GetCapacity() >= r.GetCapacity()
      && (forall loc :: r.IsBlockInside(loc) <==> p.IsBlockInside(loc) || q.IsBlockInside(loc))
      && (forall loc :: !(p.IsBlockInside(loc) && q.IsBlockInside(loc)))
  {
    var p, q := FirstHalf(r, a), SecondHalf(r, a);
    HalvesMeasure(r, a);
  }

  lemma HalvesMeasure(r: CubeRegion, a: Axis)
    requires r.Ordered() && Side(r, a) >= 2
    ensures var p, q := FirstHalf(r, a), SecondHalf(r, a);
      && p.GetCapacity() + q.GetCapacity() == r.GetCapacity()
      && 3 * p.GetCapacity() >= r.GetCapacity() && 3 * q.GetCapacity() >= r.GetCapacity()
  {
    hide CubeRegion.GetCapacity;
    var p, q := FirstHalf(r, a), SecondHalf(r, a);
    Capacity(r);
    Capacity(p);
    Capacity(q);
    var x, y, z := Side(r, X), Side(r, Y), Side(r, Z);
    var m := Side(r, a) / 2;
    Rearranged(x, y, z);
    match a {
      case X =>
        Positive(y, z);
        CutProduct(x, m, y * z);
        Rearranged(m, y, z);
        Rearranged(x - m, y, z);
      case Y =>
        Positive(x, z);
        CutProduct(y, m, x * z);
        Rearranged(x, m, z);
        Rearranged(x, y - m, z);
      case Z =>
        Positive(x, y);
        CutProduct(z, m, x * y);
        Rearranged(x, y, m);
        Rearranged(x, y, z - m);
    }
  }

  lemma UnitRegion(r: CubeRegion)
    requires r.Ordered() && Side(r, LongestAxis(r)) == 1
    ensures r.GetCapacity() == 1
  {
  }

  /** No side is longer than the one that is cut, and none before it is as long. */
  lemma CutIsFirst(r: CubeRegion, a: Axis)
    ensures Side(r, a) <= Side(r, LongestAxis(r))
    ensures LongestAxis(r) == Y ==> Side(r, X) < Side(r, Y)
    ensures LongestAxis(r) == Z ==> Side(r, X) < Side(r, Z) && Side(r, Y) < Side(r, Z)
  {
  }

  /** An odd block in the middle goes to the second half; along the other axes both halves are as the region. */
  lemma CutIsMiddle(r: CubeRegion, a: Axis, b: Axis)
    requires r.Ordered() && Side(r, a) >= 2
    ensures var p, q := Side(FirstHalf(r, a), a), Side(SecondHalf(r, a), a);
      p + q == Side(r, a) && (p == q || p + 1 == q)
    ensures b != a ==> Side(FirstHalf(r, a), b) == Side(SecondHalf(r, a), b) == Side(r, b)
    ensures FirstHalf(r, a).pos1 == r.pos1 && SecondHalf(r, a).pos2 == r.pos2
  {
  }

  // ---------- lists of regions ----------

  predicate AllOrdered(rs: seq<CubeRegion>) { forall i :: 0 <= i < |rs| ==> rs[i].Ordered() }

  /** In how many of the regions a block lies. */
  function Covers(rs: seq<CubeRegion>, loc: Vector3): nat {
    if rs == [] then 0 else (if rs[0].IsBlockInside(loc) then 1 else 0) + Covers(rs[1..], loc)
  }

  function Volume(rs: seq<CubeRegion>): int {
    if rs == [] then 0 else rs[0].GetCapacity() + Volume(rs[1..])
  }

  lemma {:induction false} Together(a: seq<CubeRegion>, b: seq<CubeRegion>)
    ensures Volume(a + b) == Volume(a) + Volume(b)
    ensures forall loc :: Covers(a + b, loc) == Covers(a, loc) + Covers(b, loc)
  {
    if a == [] {
      assert a + b == b;
    } else {
      assert (a + b)[1..] == a[1..] + b;
      Together(a[1..], b);
    }
  }

  lemma {:induction false} VolumeBounds(rs: seq<CubeRegion>, least: int)
    requires AllOrdered(rs) && forall i :: 0 <= i < |rs| ==> 3 * rs[i].GetCapacity() > least
    ensures Volume(rs) >= |rs| && 3 * Volume(rs) >= |rs| * (least + 1)
  {
    if rs != [] {
      Capacity(rs[0]);
      VolumeBounds(rs[1..], least);
      assert |rs| * (least + 1) == (|rs| - 1) * (least + 1) + (least + 1);
    }
  }

  lemma One(r: CubeRegion)
    ensures Volume([r]) == r.GetCapacity()
    ensures forall loc :: Covers([r], loc) == if r.IsBlockInside(loc) then 1 else 0
  {
    assert [r][1..] == [];
  }

  lemma Two(p: CubeRegion, q: CubeRegion)
    ensures Volume([p, q]) == p.GetCapacity() + q.GetCapacity()
    ensures forall loc :: Covers([p, q], loc) == (if p.IsBlockInside(loc) then 1 else 0) + (if q.IsBlockInside(loc) then 1 else 0)
  {
    One(p);
    One(q);
    assert [p, q] == [p] + [q];
    Together([p], [q]);
  }

  /** Every block of the region lies in exactly one of the pieces, and no other block does. */
  predicate Partitions(pieces: seq<CubeRegion>, r: CubeRegion, loc: Vector3) {
    Covers(pieces, loc) == if r.IsBlockInside(loc) then 1 else 0
  }

  // ---------- the work list ----------

  /** What is true of the regions still to be looked at and those that are done. */
  ghost predicate Progress(initial: CubeRegion, limit: int, queue: seq<CubeRegion>, result: seq<CubeRegion>) {
    && AllOrdered(queue) && AllOrdered(result)
    && (forall loc :: Covers(queue, loc) + Covers(result, loc) == if initial.IsBlockInside(loc) then 1 else 0)
    && Volume(queue) + Volume(result) == initial.GetCapacity()
    && ((queue == [initial] && result == []) || (queue == [] && result == [initial]) || Large(queue + result, limit))
    && (forall i :: 0 <= i < |result| ==> result[i].GetCapacity() <= limit || result[i].GetCapacity() == 1)
  }

  /** A piece of a split region keeps more than a third of the limit. */
  predicate Large(rs: seq<CubeRegion>, limit: int) {
    forall i :: 0 <= i < |rs| ==> 3 * rs[i].GetCapacity() > limit
  }

  lemma KeepFirst(initial: CubeRegion, limit: int, queue: seq<CubeRegion>, result: seq<CubeRegion>)
    requires Progress(initial, limit, queue, result) && queue != []
    requires queue[0].GetCapacity() <= limit || queue[0].GetCapacity() == 1
    ensures Progress(initial, limit, queue[1..], result + [queue[0]])
  {
    hide CubeRegion.GetCapacity, CubeRegion.IsBlockInside, CubeRegion.Ordered, Volume, Covers;
    var r := queue[0];
    assert queue == [r] + queue[1..];
    Together([r], queue[1..]);
    Together(result, [r]);
    if Large(queue + result, limit) {
      var next := queue[1..] + (result + [r]);
      forall i | 0 <= i < |next| ensures 3 * next[i].GetCapacity() > limit {
        assert next[i] == if i == |next| - 1 then (queue + result)[0] else (queue + result)[i + 1];
      }
    }
  }

  lemma SplitFirst(initial: CubeRegion, limit: int, queue: seq<CubeRegion>, result: seq<CubeRegion>, a: Axis)
    requires Progress(initial, limit, queue, result) && queue != []
    requires queue[0].GetCapacity() > limit && Side(queue[0], a) >= 2
    ensures Progress(initial, limit, queue[1..] + [FirstHalf(queue[0], a)] + [SecondHalf(queue[0], a)], result)
    ensures var rest := queue[1..] + [FirstHalf(queue[0], a)] + [SecondHalf(queue[0], a)];
      Volume(rest) == Volume(queue) && |rest| == |queue| + 1
  {
    hide CubeRegion.GetCapacity, CubeRegion.IsBlockInside, CubeRegion.Ordered, Volume, Covers, FirstHalf, SecondHalf, Side;
    var r := queue[0];
    var p, q := FirstHalf(r, a), SecondHalf(r, a);
    Halves(r, a);
    assert queue == [r] + queue[1..];
    Together([r], queue[1..]);
    One(r);
    Two(p, q);
    Together(queue[1..], [p, q]);
    var rest := queue[1..] + [p] + [q];
    assert rest == queue[1..] + [p, q];
    forall i | 0 <= i < |rest + result| ensures 3 * (rest + result)[i].GetCapacity() > limit {
      if i < |queue| - 1 {
        assert (rest + result)[i] == (queue + result)[i + 1];
      } else if i > |queue| {
        assert (rest + result)[i] == (queue + result)[i - 1];
      }
    }
  }

  /** A region among those in the queue is small enough to go on with. */
  lemma QueueMeasure(queue: seq<CubeRegion>)
    requires AllOrdered(queue)
    ensures Volume(queue) >= |queue|
  {
    forall i | 0 <= i < |queue| ensures 3 * queue[i].GetCapacity() > 0 { Capacity(queue[i]); }
    VolumeBounds(queue, 0);
  }

  method SplitCubeRegion(initialRegion: CubeRegion, batchSize: int) returns (result: seq<CubeRegion>)
    requires initialRegion.Ordered()
    ensures AllOrdered(result) && forall loc :: Partitions(result, initialRegion, loc)
    ensures var limit := if batchSize < 32767 then batchSize else 32767;
      && ((forall i :: 0 <= i < |result| ==> result[i].GetCapacity() <= limit) <==> batchSize >= 1)
      && (forall i :: 0 <= i < |result| ==> result[i].GetCapacity() <= Max(limit, 1))
      && (result != [initialRegion] ==> Large(result, limit) && |result| * limit < 3 * initialRegion.GetCapacity())
  {
    hide CubeRegion.GetCapacity, CubeRegion.IsBlockInside, CubeRegion.Ordered, Volume, Covers, FirstHalf, SecondHalf, Progress;
    var limit := batchSize;
    if limit > MAX_CAPACITY {
      limit := MAX_CAPACITY;
    }
    var queue := [initialRegion];
    result := [];
    Begin(initialRegion, limit);
    while queue != []
      invariant Progress(initialRegion, limit, queue, result)
      decreases 2 * Volume(queue) - |queue|
    {
      Measures(initialRegion, limit, queue, result);
      var region := queue[0];
      if region.GetCapacity() <= limit {
        KeepFirst(initialRegion, limit, queue, result);
        queue, result := queue[1..], result + [region];
        continue;
      }
      var axis := LongestAxis(region);
      if Side(region, axis) <= 1 {
        OneBlock(initialRegion, limit, queue, result);
        KeepFirst(initialRegion, limit, queue, result);
        queue, result := queue[1..], result + [region];
        continue;
      }
      SplitFirst(initialRegion, limit, queue, result, axis);
      queue := queue[1..] + [FirstHalf(region, axis)] + [SecondHalf(region, axis)];
    }
    Finished(initialRegion, limit, result);
  }

  lemma Begin(initial: CubeRegion, limit: int)
    requires initial.Ordered()
    ensures Progress(initial, limit, [initial], [])
  {
    One(initial);
  }

  lemma Measures(initial: CubeRegion, limit: int, queue: seq<CubeRegion>, result: seq<CubeRegion>)
    requires Progress(initial, limit, queue, result) && queue != []
    ensures Volume(queue) >= |queue|
    ensures Volume(queue[1..]) >= |queue| - 1 && Volume(queue) == queue[0].GetCapacity() + Volume(queue[1..])
    ensures queue[0].GetCapacity() >= 1
  {
    QueueMeasure(queue);
    QueueMeasure(queue[1..]);
    Capacity(queue[0]);
  }

  lemma OneBlock(initial: CubeRegion, limit: int, queue: seq<CubeRegion>, result: seq<CubeRegion>)
    requires Progress(initial, limit, queue, result) && queue != [] && Side(queue[0], LongestAxis(queue[0])) <= 1
    ensures queue[0].GetCapacity() == 1
  {
    UnitRegion(queue[0]);
  }

  lemma Finished(initial: CubeRegion, limit: int, result: seq<CubeRegion>)
    requires Progress(initial, limit, [], result) && initial.Ordered() && limit <= MAX_CAPACITY
    ensures AllOrdered(result) && forall loc :: Partitions(result, initial, loc)
    ensures (forall i :: 0 <= i < |result| ==> result[i].GetCapacity() <= limit) <==> limit >= 1
    ensures forall i :: 0 <= i < |result| ==> result[i].GetCapacity() <= Max(limit, 1)
    ensures result != [initial] ==> Large(result, limit) && |result| * limit < 3 * initial.GetCapacity()
  {
    hide CubeRegion.GetCapacity, CubeRegion.IsBlockInside, CubeRegion.Ordered;
    assert [] + result == result;
    Capacity(initial);
    assert result != [];
    forall i | 0 <= i < |result| ensures result[i].GetCapacity() >= 1 { Capacity(result[i]); }
    if result != [initial] {
      VolumeBounds(result, limit);
      assert |result| * (limit + 1) == |result| * limit + |result|;
    }
  }
}
