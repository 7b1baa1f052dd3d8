/** Stepping through the CTA indices of a grid, x fastest, then y, then z. */
module GridIndex {

  /** A three-dimensional index or extent. */
  datatype Dim3 = Dim3(x: nat, y: nat, z: nat)

  /** i lies inside the grid bound. */
  predicate Inside(i: Dim3, bound: Dim3)
  {
    i.x < bound.x && i.y < bound.y && i.z < bound.z
  }

  /** Position of i in the x-then-y-then-z enumeration of bound. */
  function Linear(i: Dim3, bound: Dim3): nat
  {
    i.x + bound.x * (i.y + bound.y * i.z)
  }

  /** Number of indices in the grid. */
  function Size(bound: Dim3): nat
  {
    bound.x * (bound.y * bound.z)
  }

  /**
   * Advances the index in place: x first, wrapping into y, then into z. z stops at bound.z,
   * so stepping past the last index of the grid yields (0, 0, bound.z), one past the end.
   */
  method IncrementXThenYThenZ(i: Dim3, bound: Dim3) returns (next: Dim3)
    ensures Inside(i, bound) ==> Linear(next, bound) == Linear(i, bound) + 1
    ensures Inside(i, bound) ==> Inside(next, bound) || next == Dim3(0, 0, bound.z)
    ensures Inside(i, bound) && Linear(i, bound) + 1 == Size(bound) ==> next == Dim3(0, 0, bound.z)
    ensures i.z <= bound.z ==> next.z <= bound.z
  {
    next := i;
    next := next.(x := next.x + 1);
    if next.x >= bound.x {
      next := next.(x := 0, y := next.y + 1);
      if next.y >= bound.y {
        next := next.(y := 0);
        if next.z < bound.z {
          next := next.(z := next.z + 1);
        }
      }
    }
    if Inside(i, bound) {
      StepLinear(i, bound, next);
    }
  }

  /** The arithmetic behind one step: carrying into y or z adds exactly one to the position. */
  lemma StepLinear(i: Dim3, bound: Dim3, next: Dim3)
    requires Inside(i, bound)
    requires next == if i.x + 1 < bound.x then i.(x := i.x + 1)
                     else if i.y + 1 < bound.y then Dim3(0, i.y + 1, i.z)
                     else Dim3(0, 0, i.z + 1)
    ensures Linear(next, bound) == Linear(i, bound) + 1
    ensures Inside(next, bound) || next == Dim3(0, 0, bound.z)
    ensures Linear(i, bound) + 1 == Size(bound) ==> next == Dim3(0, 0, bound.z)
  {
    var nx, ny := bound.x, bound.y;
    if i.x + 1 >= nx && i.y + 1 < ny {
      MulSucc(nx, i.y + ny * i.z);
    } else if i.x + 1 >= nx {
      MulSucc(ny, i.z);
      MulSucc(nx, i.y + ny * i.z);
    }
    if Inside(next, bound) {
      LinearBelowSize(next, bound);
    }
  }

  /** Distributivity for one more row: n * (m + 1) == n * m + n. */
  lemma MulSucc(n: nat, m: nat)
    ensures n * (m + 1) == n * m + n
  {
  }

  /** Every index inside the grid has a position below the grid's size. */
  lemma LinearBelowSize(i: Dim3, bound: Dim3)
    requires Inside(i, bound)
    ensures Linear(i, bound) < Size(bound)
  {
    var nx, ny, nz := bound.x, bound.y, bound.z;
    var m := i.y + ny * i.z;
    MulSucc(ny, i.z);
    MulMono(ny, i.z + 1, nz);
    assert m < ny * nz;
    MulSucc(nx, m);
    MulMono(nx, m + 1, ny * nz);
  }

  /** Multiplication by a natural number keeps order. */
  lemma MulMono(n: nat, a: nat, b: nat)
    requires a <= b
    ensures n * a <= n * b
  {
  }
}
