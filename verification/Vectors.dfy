/** Vector clocks with lazy zero padding (psync/vector.go). */
module Vectors {
  import opened Basics

  function At(v: Vector, i: nat): nat {
    if i < |v| then v[i] else 0
  }

  ghost predicate Leq(a: Vector, b: Vector) {
    forall i: nat :: At(a, i) <= At(b, i)
  }

  ghost predicate SameClock(a: Vector, b: Vector) {
    forall i: nat :: At(a, i) == At(b, i)
  }

  /** a strictly dominates b: at least b everywhere, more somewhere. */
  ghost predicate Dominates(a: Vector, b: Vector) {
    Leq(b, a) && exists i: nat :: At(a, i) > At(b, i)
  }

  ghost predicate HappensBefore(a: Vector, b: Vector) {
    Dominates(b, a)
  }

  ghost predicate Concurrent(a: Vector, b: Vector) {
    !Leq(a, b) && !Leq(b, a)
  }

  function Longest(a: Vector, b: Vector): nat {
    if |a| >= |b| then |a| else |b|
  }

  method Equal(a: Vector, b: Vector) returns (r: bool)
    ensures r <==> SameClock(a, b)
  {
    var n := Longest(a, b);
    var i := 0;
    while i < n
      invariant 0 <= i <= n
      invariant forall j: nat :: j < i ==> At(a, j) == At(b, j)
    {
      if At(a, i) != At(b, i) { return false; }
      i := i + 1;
    }
    return true;
  }

  method CheckDominates(a: Vector, b: Vector) returns (r: bool)
    ensures r <==> Dominates(a, b)
  {
    var n := Longest(a, b);
    var i := 0;
    r := false;
    while i < n
      invariant 0 <= i <= n
      invariant forall j: nat :: j < i ==> At(a, j) >= At(b, j)
      invariant r <==> exists j: nat :: j < i && At(a, j) > At(b, j)
    {
      if At(a, i) < At(b, i) { return false; }
      if At(a, i) > At(b, i) { r := true; }
      i := i + 1;
    }
  }

  /** The source defines concurrency as "neither dominates and not equal". */
  method CheckConcurrent(a: Vector, b: Vector) returns (r: bool)
    ensures r <==> Concurrent(a, b)
  {
    var ab := CheckDominates(a, b);
    var ba := CheckDominates(b, a);
    var same := Equal(a, b);
    r := !ab && !ba && !same;
  }

  /** Component-wise maximum: the least upper bound of a and b. */
  method Max(a: Vector, b: Vector) returns (out: Vector)
    ensures |out| == Longest(a, b)
    ensures forall i: nat :: At(out, i) == if At(a, i) >= At(b, i) then At(a, i) else At(b, i)
  {
    var n := Longest(a, b);
    out := [];
    while |out| < n
      invariant |out| <= n
      invariant forall i: nat :: i < |out| ==> out[i] == if At(a, i) >= At(b, i) then At(a, i) else At(b, i)
    {
      var i := |out|;
      out := out + [if At(a, i) >= At(b, i) then At(a, i) else At(b, i)];
    }
  }

  function Increment(v: Vector, slot: nat): (r: Vector)
    requires slot < |v|
    ensures |r| == |v| && Dominates(r, v) && At(r, slot) == At(v, slot) + 1
    ensures forall i: nat :: i != slot ==> At(r, i) == At(v, i)
  {
    var r := v[slot := v[slot] + 1];
    assert At(r, slot) > At(v, slot);
    r
  }

  /** The wave of a message: the largest entry of its clock. */
  function Wave(v: Vector): (w: nat)
    ensures forall i: nat :: At(v, i) <= w
    ensures w > 0 ==> exists i: nat :: i < |v| && At(v, i) == w
  {
    if v == [] then 0
    else
      var last := |v| - 1;
      var w := Wave(v[..last]);
      assert forall i: nat :: i < last ==> At(v, i) == At(v[..last], i);
      assert At(v, last) == v[last];
      if v[last] > w then v[last] else w
  }

  method WaveOf(v: Vector) returns (m: nat)
    ensures m == Wave(v)
  {
    m := 0;
    var i := 0;
    while i < |v|
      invariant 0 <= i <= |v|
      invariant m == Wave(v[..i])
    {
      assert v[..i + 1][..i] == v[..i];
      if v[i] > m { m := v[i]; }
      i := i + 1;
    }
    assert v[..i] == v;
  }

  /** A send moves to a higher wave exactly when the sender's own entry was the highest;
      otherwise the wave of its view repeats. */
  lemma WaveGrowsExactly(v: Vector, slot: nat)
    requires slot < |v|
    ensures Wave(Increment(v, slot)) > Wave(v) <==> At(v, slot) == Wave(v)
    ensures Wave(Increment(v, slot)) <= Wave(v) + 1
  {
    var r := Increment(v, slot);
    var i: nat :| i < |r| && At(r, i) == Wave(r);
    assert At(r, i) <= At(v, i) + 1 && At(v, i) <= Wave(v) && At(r, slot) <= Wave(r);
  }

  lemma WaveMonotone(a: Vector, b: Vector)
    requires Leq(a, b)
    ensures Wave(a) <= Wave(b)
  {
    if Wave(a) > 0 {
      var i: nat :| i < |a| && At(a, i) == Wave(a);
      assert At(a, i) <= At(b, i) <= Wave(b);
    }
  }

  lemma HappensBeforeIsStrictOrder(a: Vector, b: Vector, c: Vector)
    ensures !HappensBefore(a, a)
    ensures HappensBefore(a, b) && HappensBefore(b, c) ==> HappensBefore(a, c)
  {
    if HappensBefore(a, b) && HappensBefore(b, c) {
      var i: nat :| At(b, i) > At(a, i);
      assert At(c, i) >= At(b, i);
      assert forall j: nat :: At(a, j) <= At(b, j) <= At(c, j);
    }
  }

  /** Any two clocks stand in exactly one of four relations. */
  lemma ClockTetrachotomy(a: Vector, b: Vector)
    ensures SameClock(a, b) || HappensBefore(a, b) || HappensBefore(b, a) || Concurrent(a, b)
    ensures SameClock(a, b) ==> !HappensBefore(a, b) && !HappensBefore(b, a) && !Concurrent(a, b)
    ensures HappensBefore(a, b) ==> !HappensBefore(b, a) && !Concurrent(a, b)
  {
    if Leq(a, b) && !SameClock(a, b) {
      var i: nat :| At(a, i) != At(b, i);
      assert At(b, i) > At(a, i);
    }
    if Leq(b, a) && !SameClock(a, b) {
      var i: nat :| At(a, i) != At(b, i);
      assert At(a, i) > At(b, i);
    }
  }
}
