/** Node-index arithmetic of the left-balanced tree (mls/tree/math.go).

    A node is addressed by its array index `x`.  Every index has unique coordinates: its level
    `k` (the number of trailing 1-bits) and its position `j` among the nodes of that level, with
    `x == Index(k, j)`.  The source's shifts and masks are kept as `Shr`, `BitXor` and `BitOr`;
    the lemmas show what they mean in coordinates. */
module TreeMath {

  datatype Option<+T> = None | Some(value: T)

  // ---------------------------------------------------------------- bits

  function Pow2(k: nat): (p: nat)
    ensures p > 0
  {
    if k == 0 then 1 else 2 * Pow2(k - 1)
  }

  /** x >> k */
  function Shr(x: nat, k: nat): nat {
    if k == 0 then x else Shr(x, k - 1) / 2
  }

  /** x << k */
  function Shl(x: nat, k: nat): nat {
    if k == 0 then x else 2 * Shl(x, k - 1)
  }

  /** x ^ y */
  function BitXor(x: nat, y: nat): nat
    decreases x + y
  {
    if x == 0 then y else if y == 0 then x
    else 2 * BitXor(x / 2, y / 2) + (x + y) % 2
  }

  /** x | y */
  function BitOr(x: nat, y: nat): nat
    decreases x + y
  {
    if x == 0 then y else if y == 0 then x
    else 2 * BitOr(x / 2, y / 2) + (if x % 2 == 1 || y % 2 == 1 then 1 else 0)
  }

  /** floor(log2(x)), and 0 for x == 0 */
  function Log2(x: nat): nat {
    if x <= 1 then 0 else 1 + Log2(x / 2)
  }

  // ---------------------------------------------------------------- coordinates

  /** The number of trailing 1-bits of x. */
  function Level(x: nat): nat {
    if x % 2 == 0 then 0 else 1 + Level(x / 2)
  }

  /** x with its trailing 1-bits and the 0 above them dropped. */
  function Position(x: nat): nat {
    if x % 2 == 0 then x / 2 else Position(x / 2)
  }

  function Index(k: nat, j: nat): nat {
    if k == 0 then 2 * j else 2 * Index(k - 1, j) + 1
  }

  /** Width of the complete tree of height K. */
  function Width(K: nat): nat {
    2 * Pow2(K) - 1
  }

  lemma {:induction false} IndexCoordinates(k: nat, j: nat)
    ensures Level(Index(k, j)) == k
    ensures Position(Index(k, j)) == j
  {
    if k > 0 { IndexCoordinates(k - 1, j); }
  }

  lemma {:induction false} CoordinatesIndex(x: nat)
    ensures Index(Level(x), Position(x)) == x
  {
    if x % 2 == 1 { CoordinatesIndex(x / 2); }
  }

  lemma {:induction false} IndexClosedForm(k: nat, j: nat)
    ensures Index(k, j) == j * Pow2(k + 1) + Pow2(k) - 1
  {
    MulDouble(j, Pow2(k));
    if k > 0 { IndexClosedForm(k - 1, j); }
  }

  lemma MulDouble(j: nat, p: nat)
    ensures j * (2 * p) == 2 * (j * p)
  {
  }

  lemma MulMonotone(a: int, b: int, p: nat)
    requires a <= b
    ensures a * p <= b * p
  {
    assert b * p - a * p == (b - a) * p;
  }

  lemma {:induction false} ShrBounds(x: nat, k: nat)
    ensures Shr(x, k) * Pow2(k) <= x < (Shr(x, k) + 1) * Pow2(k)
  {
    if k > 0 {
      ShrBounds(x, k - 1);
      HalfBounds(x, Shr(x, k - 1), Pow2(k - 1));
    }
  }

  lemma HalfBounds(x: nat, s: nat, p: nat)
    requires s * p <= x < (s + 1) * p
    ensures (s / 2) * (2 * p) <= x < (s / 2 + 1) * (2 * p)
  {
    var h := s / 2;
    MulMonotone(2 * h, s, p);
    MulMonotone(s + 1, 2 * h + 2, p);
    assert h * (2 * p) == (2 * h) * p;
    assert (h + 1) * (2 * p) == (2 * h + 2) * p;
  }

  lemma {:induction false} ShrUnique(x: nat, k: nat, j: nat)
    requires j * Pow2(k) <= x < (j + 1) * Pow2(k)
    ensures Shr(x, k) == j
  {
    ShrBounds(x, k);
    var s := Shr(x, k);
    if s < j { MulMonotone(s + 1, j, Pow2(k)); }
    if s > j { MulMonotone(j + 1, s, Pow2(k)); }
  }

  lemma {:induction false} ShrAdd(x: nat, a: nat, b: nat)
    ensures Shr(Shr(x, a), b) == Shr(x, a + b)
  {
    if b > 0 { ShrAdd(x, a, b - 1); }
  }

  lemma {:induction false} ShrZero(x: nat, k: nat)
    ensures Shr(x, k) == 0 <==> x < Pow2(k)
  {
    ShrBounds(x, k);
    if x < Pow2(k) { ShrUnique(x, k, 0); }
  }

  /** Membership of coordinates in the complete tree of height K. */
  lemma {:induction false} InWidth(k: nat, j: nat, K: nat)
    ensures Index(k, j) < Width(K) <==> k <= K && j < Pow2(K - k)
  {
    if k > 0 && K > 0 { InWidth(k - 1, j, K - 1); }
  }

  lemma {:induction false} Log2Bounds(x: nat)
    requires x >= 1
    ensures Pow2(Log2(x)) <= x < 2 * Pow2(Log2(x))
  {
    if x > 1 { Log2Bounds(x / 2); }
  }

  lemma {:induction false} Log2Width(K: nat)
    ensures Log2(Width(K)) == K
  {
    if K > 0 {
      Log2Width(K - 1);
      assert Width(K) / 2 == Width(K - 1);
    }
  }

  lemma {:induction false} Pow2Monotone(a: nat, b: nat)
    requires a <= b
    ensures Pow2(a) <= Pow2(b)
    ensures a < b ==> 2 * Pow2(a) <= Pow2(b)
  {
    if a < b { Pow2Monotone(a, b - 1); }
  }

  // ---------------------------------------------------------------- one edge of the infinite tree

  function LeftStep(x: nat): nat
    requires Level(x) > 0
  {
    BitXor(x, Shl(1, Level(x) - 1))
  }

  function RightStep(x: nat): nat
    requires Level(x) > 0
  {
    BitXor(x, Shl(3, Level(x) - 1))
  }

  /** (x | 1 << k) ^ (b << (k + 1)) for the level k of x and b its bit k + 1 */
  function ParentStep(x: nat): nat {
    var k := Level(x);
    var b := Shr(x, k + 1) % 2;
    BitXor(BitOr(x, Shl(1, k)), Shl(b, k + 1))
  }

  lemma XorOne(j: nat)
    ensures BitXor(j, 1) == if j % 2 == 0 then j + 1 else j - 1
    ensures BitOr(2 * j, 1) == 2 * j + 1
  {
    if j > 0 {
      assert BitXor(j, 1) == 2 * BitXor(j / 2, 0) + (j + 1) % 2;
      assert BitOr(2 * j, 1) == 2 * BitOr(j, 0) + 1;
    }
  }

  /** Doubling both operands of an even/odd pair doubles the result. */
  lemma XorDouble(x: nat, y: nat)
    ensures BitXor(2 * x + 1, 2 * y) == 2 * BitXor(x, y) + 1
    ensures BitOr(2 * x + 1, 2 * y) == 2 * BitOr(x, y) + 1
  {
    assert (2 * x + 1) / 2 == x && (2 * y) / 2 == y;
  }

  lemma XorBitBase(j: nat)
    ensures BitXor(4 * j + 1, 1) == 4 * j
    ensures BitXor(4 * j + 1, 3) == 4 * j + 2
  {
    XorOne(2 * j);
    assert (4 * j + 1) / 2 == 2 * j;
    assert BitXor(4 * j + 1, 1) == 2 * BitXor(2 * j, 0) + (4 * j + 2) % 2;
    assert BitXor(4 * j + 1, 3) == 2 * BitXor(2 * j, 1) + (4 * j + 4) % 2;
  }

  lemma {:induction false} XorBit(k: nat, j: nat, c: nat)
    requires c == 1 || c == 3
    ensures BitXor(Index(k + 1, j), c * Pow2(k)) == Index(k, 2 * j + c / 2)
  {
    IndexStep(k, j);
    IndexStep(0, 2 * j + c / 2);
    if k == 0 {
      XorBitBase(j);
    } else {
      XorBit(k - 1, j, c);
      IndexStep(k - 1, 2 * j + c / 2);
      XorDouble(Index(k, j), c * Pow2(k - 1));
      MulDouble(c, Pow2(k - 1));
    }
  }

  lemma IndexStep(k: nat, j: nat)
    ensures Index(k + 1, j) == 2 * Index(k, j) + 1
    ensures Index(0, j) == 2 * j
  {
  }

  lemma {:induction false} ShrLevel(k: nat, j: nat)
    ensures Shr(Index(k, j), k + 1) == j
  {
    IndexClosedForm(k, j);
    assert (j + 1) * Pow2(k + 1) == j * Pow2(k + 1) + Pow2(k + 1);
    ShrUnique(Index(k, j), k + 1, j);
  }

  lemma {:induction false} OrParent(k: nat, i: nat)
    ensures BitOr(Index(k, 2 * i), Pow2(k)) == Index(k + 1, i)
  {
    IndexStep(k, i);
    if k == 0 {
      XorOne(2 * i);
    } else {
      OrParent(k - 1, i);
      IndexStep(k - 1, 2 * i);
      XorDouble(Index(k - 1, 2 * i), Pow2(k - 1));
    }
  }

  lemma OrXorParentBase(i: nat)
    ensures BitXor(BitOr(4 * i + 2, 1), 2) == 4 * i + 1
  {
    XorOne(2 * i + 1);
    XorDouble(2 * i + 1, 1);
  }

  lemma OrXorDouble(x: nat, p: nat, q: nat, y: nat)
    requires BitXor(BitOr(x, p), q) == y
    ensures BitXor(BitOr(2 * x + 1, 2 * p), 2 * q) == 2 * y + 1
  {
    XorDouble(x, p);
    XorDouble(BitOr(x, p), q);
  }

  lemma {:induction false} OrXorParent(k: nat, i: nat)
    ensures BitXor(BitOr(Index(k, 2 * i + 1), Pow2(k)), Pow2(k + 1)) == Index(k + 1, i)
  {
    IndexStep(k, i);
    if k == 0 {
      OrXorParentBase(i);
    } else {
      OrXorParent(k - 1, i);
      IndexStep(k - 1, 2 * i + 1);
      OrXorDouble(Index(k - 1, 2 * i + 1), Pow2(k - 1), Pow2(k), Index(k, i));
    }
  }

  lemma {:induction false} ShlValues(k: nat)
    ensures Shl(0, k) == 0 && Shl(1, k) == Pow2(k) && Shl(3, k) == 3 * Pow2(k)
  {
    if k > 0 { ShlValues(k - 1); }
  }

  lemma XorZero(x: nat)
    ensures BitXor(x, 0) == x
  {
  }

  lemma {:induction false} ParentStepAt(k: nat, j: nat)
    ensures ParentStep(Index(k, j)) == Index(k + 1, j / 2)
  {
    IndexCoordinates(k, j);
    ShrLevel(k, j);
    ShlValues(k);
    ShlValues(k + 1);
    if j % 2 == 0 {
      OrParent(k, j / 2);
      XorZero(Index(k + 1, j / 2));
    } else {
      OrXorParent(k, j / 2);
    }
  }

  lemma {:induction false} ChildStepsAt(k: nat, j: nat)
    requires k > 0
    ensures Level(Index(k, j)) == k
    ensures LeftStep(Index(k, j)) == Index(k - 1, 2 * j)
    ensures RightStep(Index(k, j)) == Index(k - 1, 2 * j + 1)
  {
    IndexCoordinates(k, j);
    ShlValues(k - 1);
    XorBit(k - 1, j, 1);
    XorBit(k - 1, j, 3);
  }

  // ---------------------------------------------------------------- edges in coordinates

  function Above(x: nat): nat {
    Index(Level(x) + 1, Position(x) / 2)
  }

  function LeftBelow(x: nat): nat
    requires Level(x) > 0
  {
    Index(Level(x) - 1, 2 * Position(x))
  }

  function RightBelow(x: nat): nat
    requires Level(x) > 0
  {
    Index(Level(x) - 1, 2 * Position(x) + 1)
  }

  /** Index of the leftmost leaf below x. */
  function First(x: nat): int {
    x + 1 - Pow2(Level(x))
  }

  lemma {:induction false} BitsAreEdges(x: nat)
    ensures ParentStep(x) == Above(x)
    ensures Level(x) > 0 ==> LeftStep(x) == LeftBelow(x) && RightStep(x) == RightBelow(x)
  {
    CoordinatesIndex(x);
    ParentStepAt(Level(x), Position(x));
    if Level(x) > 0 { ChildStepsAt(Level(x), Position(x)); }
  }

  lemma {:induction false} ChildEdges(x: nat)
    requires Level(x) > 0
    ensures Level(LeftBelow(x)) == Level(RightBelow(x)) == Level(x) - 1
    ensures Above(LeftBelow(x)) == x && Above(RightBelow(x)) == x
    ensures LeftBelow(x) == x - Pow2(Level(x) - 1)
    ensures RightBelow(x) == x + Pow2(Level(x) - 1)
    ensures First(LeftBelow(x)) == First(x) && First(RightBelow(x)) == x + 1
  {
    var k, j := Level(x), Position(x);
    CoordinatesIndex(x);
    IndexCoordinates(k - 1, 2 * j);
    IndexCoordinates(k - 1, 2 * j + 1);
    IndexChildren(k - 1, j);
    assert Pow2(k) == 2 * Pow2(k - 1);
  }

  /** The subtrees of the two children lie end to end around their parent. */
  lemma {:induction false} ChildSpans(x: nat)
    requires Level(x) > 0
    ensures First(LeftBelow(x)) == First(x) && LeftBelow(x) + Pow2(Level(LeftBelow(x))) == x
    ensures First(RightBelow(x)) == x + 1 && RightBelow(x) + Pow2(Level(RightBelow(x))) == x + Pow2(Level(x))
    ensures x % 2 == 1 && First(x) <= x
  {
    ChildEdges(x);
    assert Pow2(Level(x)) == 2 * Pow2(Level(x) - 1);
  }

  lemma {:induction false} IndexChildren(k: nat, j: nat)
    ensures Index(k, 2 * j) == Index(k + 1, j) - Pow2(k)
    ensures Index(k, 2 * j + 1) == Index(k + 1, j) + Pow2(k)
  {
    IndexStep(k, j);
    if k == 0 {
      IndexStep(0, 2 * j);
      IndexStep(0, 2 * j + 1);
    } else {
      IndexChildren(k - 1, j);
      IndexStep(k - 1, 2 * j);
      IndexStep(k - 1, 2 * j + 1);
    }
  }

  lemma {:induction false} ParentEdge(x: nat)
    ensures Level(Above(x)) == Level(x) + 1
    ensures x == LeftBelow(Above(x)) || x == RightBelow(Above(x))
  {
    CoordinatesIndex(x);
    IndexCoordinates(Level(x) + 1, Position(x) / 2);
  }

  lemma {:induction false} FirstNonNegative(x: nat)
    ensures First(x) >= 0
  {
    CoordinatesIndex(x);
    IndexClosedForm(Level(x), Position(x));
  }

  // ---------------------------------------------------------------- trees of any leaf count

  const MAX_LEAVES: nat := 0x8000_0000
  const UINT32: nat := 0x1_0000_0000

  function NodeWidth(n: nat): nat {
    if n == 0 then 0 else 2 * (n - 1) + 1
  }

  function Root(n: nat): nat {
    Pow2(Log2(NodeWidth(n))) - 1
  }

  /** Follow left children from r until the index is below w. */
  function Descend(r: nat, w: nat): (c: nat)
    requires First(r) < w
    ensures First(r) <= c < w && Level(c) <= Level(r)
    decreases Level(r)
  {
    if r < w then r
    else
      ChildEdges(r);
      Descend(LeftBelow(r), w)
  }

  /** Follow parents from p until the index is below w. */
  function Climb(p: nat, w: nat, K: nat): (q: nat)
    requires p < Width(K) && Pow2(K) <= w
    ensures q < w && q < Width(K) && Level(q) >= Level(p)
    decreases K - Level(p)
  {
    if p < w then p
    else
      AboveInWidth(p, w, K);
      Climb(Above(p), w, K)
  }

  lemma {:induction false} AboveInWidth(p: nat, w: nat, K: nat)
    requires p < Width(K) && Pow2(K) <= w
    requires p >= w || p != Pow2(K) - 1
    ensures Level(p) < K && Above(p) < Width(K) && Level(Above(p)) == Level(p) + 1
  {
    assert p != Index(K, 0) by { IndexClosedForm(K, 0); }
    CoordinatesIndex(p);
    ParentEdge(p);
    InWidthAbove(Level(p), Position(p), K);
  }

  lemma {:induction false} InWidthAbove(k: nat, j: nat, K: nat)
    requires Index(k, j) < Width(K) && Index(k, j) != Index(K, 0)
    ensures k < K && Index(k + 1, j / 2) < Width(K)
  {
    InWidth(k, j, K);
    InWidth(k + 1, j / 2, K);
    if k < K { assert Pow2(K - k) == 2 * Pow2(K - (k + 1)); }
  }

  function LeftOf(x: nat): Option<nat> {
    if Level(x) == 0 then None else Some(LeftBelow(x))
  }

  function RightOf(x: nat, n: nat): Option<nat>
    requires x < NodeWidth(n)
  {
    if Level(x) == 0 then None
    else
      RightSubtreeStarts(x, n);
      Some(Descend(RightBelow(x), NodeWidth(n)))
  }

  /** The leaf just right of an internal node of the tree is itself in the tree. */
  lemma RightSubtreeStarts(x: nat, n: nat)
    requires x < NodeWidth(n) && Level(x) > 0
    ensures First(RightBelow(x)) < NodeWidth(n)
  {
    ChildEdges(x);
    OddBelowOdd(x, n);
  }

  lemma OddBelowOdd(x: nat, n: nat)
    requires x < NodeWidth(n) && x % 2 == 1
    ensures x + 1 < NodeWidth(n)
  {
    var q := x / 2;
    assert x == 2 * q + 1 && q < n - 1;
  }

  function ParentOf(x: nat, n: nat): (r: Option<nat>)
    requires x < NodeWidth(n)
    ensures r.Some? <==> x != Root(n)
    ensures r.Some? ==> r.value < NodeWidth(n) && Level(r.value) > Level(x)
  {
    var w := NodeWidth(n);
    if x == Root(n) then None
    else
      Log2Bounds(w);
      AboveInWidth(x, w, Log2(w));
      Some(Climb(Above(x), w, Log2(w)))
  }

  function SiblingOf(x: nat, n: nat): Option<nat>
    requires x < NodeWidth(n)
  {
    match ParentOf(x, n)
    case None => None
    case Some(p) =>
      if LeftOf(p) == Some(x) then RightOf(p, n) else LeftOf(p)
  }

  lemma {:induction false} DescendThenClimb(r: nat, w: nat, K: nat)
    requires First(r) < w && Pow2(K) <= w && Above(r) < Width(K)
    ensures Above(Descend(r, w)) < Width(K)
    ensures Climb(Above(Descend(r, w)), w, K) == Climb(Above(r), w, K)
    decreases Level(r)
  {
    if r >= w {
      ChildEdges(r);
      BelowInWidth(r, K);
      DescendThenClimb(LeftBelow(r), w, K);
    }
  }

  lemma {:induction false} BelowInWidth(r: nat, K: nat)
    requires Above(r) < Width(K)
    ensures r < Width(K)
  {
    var k, j := Level(r), Position(r);
    CoordinatesIndex(r);
    InWidth(k, j, K);
    InWidth(k + 1, j / 2, K);
    if k < K { assert Pow2(K - k) == 2 * Pow2(K - k - 1); }
  }

  /** Children of an internal node are distinct, in range, and have that node as parent. */
  lemma {:induction false} ChildrenHaveParent(x: nat, n: nat)
    requires x < NodeWidth(n) && Level(x) > 0
    ensures LeftOf(x).Some? && RightOf(x, n).Some?
    ensures LeftOf(x).value < x < RightOf(x, n).value < NodeWidth(n)
    ensures ParentOf(LeftOf(x).value, n) == Some(x)
    ensures ParentOf(RightOf(x, n).value, n) == Some(x)
  {
    var w := NodeWidth(n);
    var K := Log2(w);
    Log2Bounds(w);
    ChildEdges(x);
    RightSubtreeStarts(x, n);
    LevelAtMostRoot(x, n);
    DescendThenClimb(RightBelow(x), w, K);
  }

  lemma {:induction false} RootLevel(n: nat)
    requires n >= 1
    ensures Level(Root(n)) == Log2(NodeWidth(n)) && Position(Root(n)) == 0
    ensures Root(n) < NodeWidth(n)
  {
    var K := Log2(NodeWidth(n));
    Log2Bounds(NodeWidth(n));
    IndexClosedForm(K, 0);
    IndexCoordinates(K, 0);
  }

  lemma {:induction false} ClimbThenDescend(q: nat, x: nat, w: nat, K: nat)
    requires First(q) < w && Descend(q, w) == x && (q == x || q >= w)
    requires Above(q) < Width(K) && Pow2(K) <= w
    ensures
      var p := Climb(Above(q), w, K);
      Level(p) > 0 && (x == LeftBelow(p) || (First(RightBelow(p)) < w && x == Descend(RightBelow(p), w)))
    decreases K - Level(q)
  {
    ParentEdge(q);
    var u := Above(q);
    ChildEdges(u);
    if q == LeftBelow(u) && u >= w {
      AboveInWidth(u, w, K);
      ClimbThenDescend(u, x, w, K);
    }
  }

  /** Every node but the root is the left or the right child of its parent. */
  lemma {:induction false} NodeIsChild(x: nat, n: nat)
    requires x < NodeWidth(n) && x != Root(n)
    ensures ParentOf(x, n).Some?
    ensures
      var p := ParentOf(x, n).value;
      p < NodeWidth(n) && Level(x) < Level(p) && (LeftOf(p) == Some(x) || RightOf(p, n) == Some(x))
  {
    var w := NodeWidth(n);
    Log2Bounds(w);
    AboveInWidth(x, w, Log2(w));
    FirstNonNegative(x);
    assert First(x) <= x by { assert Pow2(Level(x)) >= 1; }
    ClimbThenDescend(x, x, w, Log2(w));
  }

  lemma {:induction false} SiblingInvolution(x: nat, n: nat)
    requires x < NodeWidth(n) && x != Root(n)
    ensures SiblingOf(x, n).Some?
    ensures
      var s := SiblingOf(x, n).value;
      s != x && s < NodeWidth(n) && ParentOf(s, n) == ParentOf(x, n) && SiblingOf(s, n) == Some(x)
  {
    NodeIsChild(x, n);
    ChildrenHaveParent(ParentOf(x, n).value, n);
  }

  /** The node reached from x by `steps` calls of Parent, staying at the root once there. */
  function ClimbSteps(x: nat, n: nat, steps: nat): (y: nat)
    requires x < NodeWidth(n)
    ensures y < NodeWidth(n)
    decreases steps
  {
    if steps == 0 || x == Root(n) then x
    else ClimbSteps(ParentOf(x, n).value, n, steps - 1)
  }

  lemma {:induction false} LevelAtMostRoot(x: nat, n: nat)
    requires x < NodeWidth(n)
    ensures Level(x) <= Level(Root(n))
    ensures Level(x) == Level(Root(n)) ==> x == Root(n)
  {
    RootLevel(n);
    var K := Log2(NodeWidth(n));
    Log2Bounds(NodeWidth(n));
    CoordinatesIndex(x);
    CoordinatesIndex(Root(n));
    InWidth(Level(x), Position(x), K);
  }

  lemma {:induction false} ClimbReaches(x: nat, n: nat, steps: nat)
    requires x < NodeWidth(n) && Level(Root(n)) <= Level(x) + steps
    ensures ClimbSteps(x, n, steps) == Root(n)
    decreases steps
  {
    LevelAtMostRoot(x, n);
    if steps > 0 && x != Root(n) {
      NodeIsChild(x, n);
      ClimbReaches(ParentOf(x, n).value, n, steps - 1);
    }
  }

  /** Climbing reaches the root within ceil(log2 n) steps from any node. */
  lemma {:induction false} ClimbReachesRoot(x: nat, n: nat, steps: nat)
    requires x < NodeWidth(n) && n <= Pow2(steps)
    ensures ClimbSteps(x, n, steps) == Root(n)
  {
    var w := NodeWidth(n);
    RootLevel(n);
    Log2Bounds(w);
    if steps < Log2(w) { Pow2Monotone(steps, Log2(w)); }
    ClimbReaches(x, n, steps);
  }

  // ---------------------------------------------------------------- math.go's loops

  method ComputeLevel(x: nat) returns (k: nat)
    ensures k == Level(x)
  {
    if x % 2 == 0 { return 0; }
    k := 0;
    while Shr(x, k) % 2 == 1
      invariant Level(x) == k + Level(Shr(x, k))
      decreases Shr(x, k)
    {
      k := k + 1;
    }
  }

  method Left(x: nat) returns (l: Option<nat>)
    ensures l == LeftOf(x)
  {
    var k := ComputeLevel(x);
    if k == 0 { return None; }
    BitsAreEdges(x);
    l := Some(LeftStep(x));
  }

  /** The loop of Right: left children until the index is in range.  All values fit 32 bits. */
  method ClampLeft(r: nat, w: nat) returns (y: nat)
    requires First(r) < w && r < UINT32
    ensures y == Descend(r, w)
  {
    y := r;
    while y >= w
      invariant First(y) < w && y < UINT32
      invariant Descend(r, w) == Descend(y, w)
      decreases Level(y)
    {
      ChildEdges(y);
      var l := Left(y);
      y := l.value;
    }
  }

  method Right(x: nat, n: nat) returns (r: Option<nat>)
    requires x < NodeWidth(n) && n <= MAX_LEAVES
    ensures r == RightOf(x, n)
  {
    var k := ComputeLevel(x);
    if k == 0 { return None; }
    var y: nat := RightStep(x);
    assert y == RightBelow(x) by { BitsAreEdges(x); }
    RightSubtreeStarts(x, n);
    RightFits(x, n);
    y := ClampLeft(y, NodeWidth(n));
    r := Some(y);
  }

  lemma RightFits(x: nat, n: nat)
    requires x < NodeWidth(n) && n <= MAX_LEAVES && Level(x) > 0
    ensures RightBelow(x) < UINT32
  {
    var w := NodeWidth(n);
    var K := Log2(w);
    Log2Bounds(w);
    assert UINT32 == Pow2(32) by { assert Pow2(8) == 256; assert Pow2(16) == 65536; assert Pow2(24) == 0x100_0000; }
    if K >= 32 { Pow2Monotone(32, K); }
    Pow2Monotone(K, 31);
    ChildEdges(x);
    CoordinatesIndex(x);
    InWidth(Level(x), Position(x), K);
    BelowInWidth(RightBelow(x), K);
  }

  method Parent(x: nat, n: nat) returns (r: Option<nat>)
    requires x < NodeWidth(n) && n <= MAX_LEAVES
    ensures r == ParentOf(x, n)
  {
    if x == Root(n) { return None; }
    var w := NodeWidth(n);
    ghost var K := Log2(w);
    Log2Bounds(w);
    AboveInWidth(x, w, K);
    var p: nat := ParentStep(x);
    assert p == Above(x) by { BitsAreEdges(x); }
    while p >= w
      invariant p < Width(K)
      invariant Climb(Above(x), w, K) == Climb(p, w, K)
      decreases K - Level(p)
    {
      AboveInWidth(p, w, K);
      assert ParentStep(p) == Above(p) by { BitsAreEdges(p); }
      p := ParentStep(p);
    }
    r := Some(p);
  }

  method Sibling(x: nat, n: nat) returns (r: Option<nat>)
    requires x < NodeWidth(n) && n <= MAX_LEAVES
    ensures r == SiblingOf(x, n)
  {
    var p := Parent(x, n);
    if p.None? { return None; }
    NodeIsChild(x, n);
    var l := Left(p.value);
    var s := Right(p.value, n);
    if l == Some(x) { return s; }
    r := l;
  }

  // ---------------------------------------------------------------- complete trees

  /** In a complete tree nothing is clamped. */
  lemma {:induction false} CompleteEdges(k: nat, j: nat, K: nat)
    requires k <= K && j < Pow2(K - k)
    ensures Index(k, j) < Width(K) == NodeWidth(Pow2(K))
    ensures Root(Pow2(K)) == Index(K, 0)
    ensures k < K ==> ParentOf(Index(k, j), Pow2(K)) == Some(Index(k + 1, j / 2))
    ensures k > 0 ==> LeftOf(Index(k, j)) == Some(Index(k - 1, 2 * j))
                      && RightOf(Index(k, j), Pow2(K)) == Some(Index(k - 1, 2 * j + 1))
    ensures k == 0 ==> LeftOf(Index(k, j)) == None
    ensures Index(k, j) == Index(K, 0) <==> k == K
  {
    CompleteRange(k, j, K);
    if k < K { CompleteParent(k, j, K); }
    if k > 0 { CompleteChildren(k, j, K); }
  }

  lemma {:induction false} CompleteRange(k: nat, j: nat, K: nat)
    requires k <= K && j < Pow2(K - k)
    ensures Index(k, j) < Width(K) == NodeWidth(Pow2(K))
    ensures Root(Pow2(K)) == Index(K, 0)
    ensures k == 0 ==> LeftOf(Index(k, j)) == None
    ensures Index(k, j) == Index(K, 0) <==> k == K
  {
    InWidth(k, j, K);
    IndexCoordinates(k, j);
    IndexCoordinates(K, 0);
    IndexClosedForm(K, 0);
    Log2Width(K);
  }

  lemma {:induction false} CompleteChildren(k: nat, j: nat, K: nat)
    requires 0 < k <= K && j < Pow2(K - k)
    ensures Index(k, j) < NodeWidth(Pow2(K))
    ensures LeftOf(Index(k, j)) == Some(Index(k - 1, 2 * j))
    ensures RightOf(Index(k, j), Pow2(K)) == Some(Index(k - 1, 2 * j + 1))
  {
    InWidth(k, j, K);
    IndexCoordinates(k, j);
    InWidth(k - 1, 2 * j + 1, K);
    assert Pow2(K - (k - 1)) == 2 * Pow2(K - k);
    RightInRange(Index(k, j), Pow2(K));
  }

  lemma RightInRange(x: nat, n: nat)
    requires x < NodeWidth(n) && Level(x) > 0 && RightBelow(x) < NodeWidth(n)
    ensures RightOf(x, n) == Some(RightBelow(x))
  {
  }

  lemma {:induction false} CompleteParent(k: nat, j: nat, K: nat)
    requires k < K && j < Pow2(K - k)
    ensures Index(k, j) < NodeWidth(Pow2(K))
    ensures ParentOf(Index(k, j), Pow2(K)) == Some(Index(k + 1, j / 2))
  {
    IndexCoordinates(k, j);
    InWidth(k, j, K);
    InWidth(k + 1, j / 2, K);
    RootLevel(Pow2(K));
    Log2Width(K);
    ParentInRange(Index(k, j), Pow2(K));
  }

  lemma ParentInRange(x: nat, n: nat)
    requires x < NodeWidth(n) && x != Root(n) && Above(x) < NodeWidth(n)
    ensures ParentOf(x, n) == Some(Above(x))
  {
  }

  lemma {:induction false} CompleteSibling(k: nat, j: nat, K: nat)
    requires k < K && j < Pow2(K - k)
    ensures Index(k, j) < NodeWidth(Pow2(K))
    ensures SiblingOf(Index(k, j), Pow2(K)) == Some(Index(k, Flip(j)))
  {
    CompleteParent(k, j, K);
    assert Pow2(K - k) == 2 * Pow2(K - (k + 1));
    CompleteChildren(k + 1, j / 2, K);
    IndexCoordinates(k, j);
    IndexCoordinates(k, 2 * (j / 2));
  }

  /** j ^ 1 */
  function Flip(j: nat): (f: nat)
    ensures f / 2 == j / 2 && f != j && (f == j + 1 || f == j - 1)
  {
    if j % 2 == 0 then j + 1 else j - 1
  }
}
