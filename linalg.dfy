/// The Matrix template of include/tpm/linalg.hpp, over int: an N×M matrix
/// stored row-major in a flat array, its constructors, element-wise
/// arithmetic, transpose, the lexicographic ordering of column vectors, and
/// the product, which is a triple loop for small sizes and otherwise the
/// divide-and-conquer multiply_ptr over tables of pointers.
module Linalg {
  import opened IntArith

  // ---------------------------------------------------------------------
  // detail::floor and detail::ceil of n / d, computed in floating point
  // and truncated back to an unsigned size.

  /// floor(n, d): the quotient as a float, truncated.
  function FloorDiv(n: nat, d: nat): int
    requires d > 0
  {
    ((n as real) / (d as real)).Floor
  }

  /// ceil(n, d): the truncated quotient, plus one when the quotient is not
  /// whole and positive.
  function CeilDiv(n: nat, d: nat): int
    requires d > 0
  {
    var x := (n as real) / (d as real);
    if x.Floor as real == x then x.Floor else x.Floor + (if x > 0.0 then 1 else 0)
  }

  /// The float quotient truncates to the integer quotient.
  lemma FloorDivIsDiv(n: nat, d: nat)
    requires d > 0
    ensures FloorDiv(n, d) == n / d
  {
    var q, r := n / d, n % d;
    DivMod(n, d);
    var x := (n as real) / (d as real);
    assert x == (q as real) + (r as real) / (d as real);
    assert 0.0 <= (r as real) / (d as real) < 1.0;
  }

  /// The float quotient rounds up to the integer quotient rounded up.
  lemma CeilDivIsCeil(n: nat, d: nat)
    requires d > 0
    ensures CeilDiv(n, d) == (if n % d == 0 then n / d else n / d + 1)
  {
    FloorDivIsDiv(n, d);
    var q, r := n / d, n % d;
    var x := (n as real) / (d as real);
    assert x * (d as real) == n as real;
    assert n == q * d + r;
    if r == 0 {
      assert x == q as real;
    } else {
      assert x != q as real;
      assert x > 0.0;
    }
  }

  /// The two halves of a split dimension add up to the dimension.
  lemma HalvesSum(n: nat)
    ensures FloorDiv(n, 2) == n / 2 && CeilDiv(n, 2) == n - n / 2
    ensures FloorDiv(n, 2) + CeilDiv(n, 2) == n
  {
    FloorDivIsDiv(n, 2);
    CeilDivIsCeil(n, 2);
  }

  // ---------------------------------------------------------------------
  // Row-major cells and sums

  /// The flat index of cell (r, c) of a matrix with w columns: c after
  /// r rows of w entries.
  function Cell(r: nat, w: nat, c: nat): nat
  {
    MulNonNegative(r, w);
    r * w + c
  }

  /// A cell of an rows×w matrix lies inside its rows*w entries.
  lemma CellInside(r: nat, w: nat, c: nat, rows: nat)
    requires r < rows && c < w
    ensures Cell(r, w, c) < rows * w
  {
    MulStrictMonotone(r, rows, w);
  }

  /// Shifting by h rows.
  lemma CellShift(h: nat, r: nat, w: nat, c: nat)
    ensures h * w + Cell(r, w, c) == Cell(h + r, w, c)
  {
    Distribute(h, r, w);
  }

  /// Reading a sequence, with 0 outside it.
  function Get(s: seq<int>, x: nat): int
  {
    if x < |s| then s[x] else 0
  }

  /// Reading a pointer table, with 0 outside it.
  function Ptr(s: seq<nat>, x: nat): nat
  {
    if x < |s| then s[x] else 0
  }

  /// f(0) + ... + f(k - 1).
  function Sum(f: nat -> int, k: nat): int
  {
    if k == 0 then 0 else Sum(f, k - 1) + f(k - 1)
  }

  lemma {:induction false} SumCongruence(f: nat -> int, g: nat -> int, k: nat)
    requires forall l: nat :: l < k ==> f(l) == g(l)
    ensures Sum(f, k) == Sum(g, k)
  {
    if k > 0 {
      SumCongruence(f, g, k - 1);
    }
  }

  /// A sum of a + b terms is the sum of the first a plus the sum of the
  /// b terms after them.
  lemma {:induction false} SumSplit(f: nat -> int, g: nat -> int, a: nat, b: nat)
    requires forall l: nat :: l < b ==> g(l) == f(a + l)
    ensures Sum(f, a + b) == Sum(f, a) + Sum(g, b)
  {
    if b > 0 {
      SumSplit(f, g, a, b - 1);
    }
  }

  /// The k-th term of entry (i, j) of the product of the N×M matrix whose
  /// entries the table ap points to and the M×P matrix whose entries bp
  /// points to.
  function Term(a: seq<int>, b: seq<int>, ap: seq<nat>, bp: seq<nat>, m: nat, p: nat, i: nat, j: nat): nat -> int
  {
    (k: nat) => Get(a, Ptr(ap, Cell(i, m, k))) * Get(b, Ptr(bp, Cell(k, p, j)))
  }

  /// Entry (i, j) of that product: the sum over k < m.
  function Dot(a: seq<int>, b: seq<int>, ap: seq<nat>, bp: seq<nat>, m: nat, p: nat, i: nat, j: nat): int
  {
    Sum(Term(a, b, ap, bp, m, p, i, j), m)
  }

  /// The identity pointer table: entry x points to x.
  function Iota(n: nat): (t: seq<nat>)
    ensures |t| == n && forall x :: 0 <= x < n ==> t[x] == x
  {
    seq(n, x => x)
  }

  // ---------------------------------------------------------------------
  // Splitting a pointer table into its left and right column halves

  /// Columns of the left half of a split: floor(w, 2).
  function LeftWidth(w: nat): nat
  {
    w / 2
  }

  /// Columns of the right half of a split: ceil(w, 2).
  function RightWidth(w: nat): nat
  {
    w - w / 2
  }

  /// The slot in the left half that the split loop of multiply_ptr writes
  /// for flat index y of a table with w columns (when y % w < w / 2).
  function LeftSlot(y: nat, w: nat): int
    requires w > 0
  {
    MulNonNegative(LeftWidth(w), y / w);
    LeftWidth(w) * (y / w) + y % w
  }

  /// The slot in the right half that the split loop writes, as written:
  /// rows of the right half are addressed with stride floor(w, 2).
  function RightSlotAsWritten(y: nat, w: nat): int
    requires w > 0
  {
    LeftWidth(w) * (y / w) + y % w - LeftWidth(w)
  }

  /// The slot as evidently intended: the right half has ceil(w, 2) columns.
  function RightSlot(y: nat, w: nat): int
    requires w > 0
  {
    RightWidth(w) * (y / w) + y % w - LeftWidth(w)
  }

  /// With 7 columns (3 left, 4 right) and 2 rows, the as-written split
  /// sends cell (0, 6) and cell (1, 3) to the same right-half slot 3, and
  /// no cell to slot 7: of the right table's 2·4 pointers one is
  /// overwritten and one is never initialised.
  lemma RightSlotAsWrittenCollides()
    ensures RightSlotAsWritten(6, 7) == 3 && RightSlotAsWritten(10, 7) == 3
    ensures forall y :: 0 <= y < 14 && y % 7 >= 3 ==> RightSlotAsWritten(y, 7) != 7
  {
  }

  /// Where cell (r, c) of a table with w columns lands.
  lemma SlotOfCell(r: nat, w: nat, c: nat)
    requires c < w
    ensures c < LeftWidth(w) ==> LeftSlot(Cell(r, w, c), w) == Cell(r, LeftWidth(w), c)
    ensures c >= LeftWidth(w) ==> RightSlot(Cell(r, w, c), w) == Cell(r, RightWidth(w), c - LeftWidth(w))
  {
    if c >= LeftWidth(w) {
    }
    DivModOfSum(r, w, c);
  }

  /// Entry y of t has been copied into its half.
  predicate Placed(left: seq<nat>, right: seq<nat>, t: seq<nat>, w: nat, y: nat)
    requires w > 0
  {
    y < |t| &&
    if y % w < LeftWidth(w) then
      0 <= LeftSlot(y, w) < |left| && left[LeftSlot(y, w)] == t[y]
    else
      0 <= RightSlot(y, w) < |right| && right[RightSlot(y, w)] == t[y]
  }

  /// Flat index y of a rows×w table lands inside its half.
  lemma SlotInside(y: nat, w: nat, rows: nat)
    requires w > 0 && y < rows * w
    ensures y % w < LeftWidth(w) ==> 0 <= LeftSlot(y, w) < rows * LeftWidth(w)
    ensures y % w >= LeftWidth(w) ==> 0 <= RightSlot(y, w) < rows * RightWidth(w)
  {
    var r, c := y / w, y % w;
    DivMod(y, w);
    assert r < rows by {
      if r >= rows {
        MulMonotone(rows, r, w);
      }
    }
    assert y == Cell(r, w, c);
    SlotOfCell(r, w, c);
    if c < LeftWidth(w) {
      CellInside(r, LeftWidth(w), c, rows);
    } else {
      CellInside(r, RightWidth(w), c - LeftWidth(w), rows);
    }
  }

  /// Distinct entries of the same half land in distinct slots.
  lemma SlotInjective(y: nat, z: nat, w: nat)
    requires w > 0 && y != z
    ensures y % w < LeftWidth(w) && z % w < LeftWidth(w) ==> LeftSlot(y, w) != LeftSlot(z, w)
    ensures y % w >= LeftWidth(w) && z % w >= LeftWidth(w) ==> RightSlot(y, w) != RightSlot(z, w)
  {
    DivMod(y, w);
    DivMod(z, w);
    SlotOfCell(y / w, w, y % w);
    SlotOfCell(z / w, w, z % w);
    if y % w < LeftWidth(w) && z % w < LeftWidth(w) {
      if LeftSlot(y, w) == LeftSlot(z, w) {
        DivModOfSum(y / w, LeftWidth(w), y % w);
        DivModOfSum(z / w, LeftWidth(w), z % w);
      }
    }
    if y % w >= LeftWidth(w) && z % w >= LeftWidth(w) {
      if RightSlot(y, w) == RightSlot(z, w) {
        DivModOfSum(y / w, RightWidth(w), y % w - LeftWidth(w));
        DivModOfSum(z / w, RightWidth(w), z % w - LeftWidth(w));
      }
    }
  }

  /// Writing entry x into its slot keeps entry y placed.
  lemma PlacedKeptOne(left: seq<nat>, right: seq<nat>, left': seq<nat>, right': seq<nat>, t: seq<nat>, w: nat, x: nat, y: nat)
    requires w > 0 && x < |t| && y != x
    requires x % w < LeftWidth(w) ==> 0 <= LeftSlot(x, w) < |left| && left' == left[LeftSlot(x, w) := t[x]] && right' == right
    requires x % w >= LeftWidth(w) ==> 0 <= RightSlot(x, w) < |right| && right' == right[RightSlot(x, w) := t[x]] && left' == left
    requires Placed(left, right, t, w, y)
    ensures Placed(left', right', t, w, y)
  {
    SlotInjective(y, x, w);
  }

  /// Writing entry x into its slot places it and keeps every earlier entry
  /// placed.
  lemma PlacedKept(left: seq<nat>, right: seq<nat>, left': seq<nat>, right': seq<nat>, t: seq<nat>, w: nat, x: nat)
    requires w > 0 && x < |t|
    requires x % w < LeftWidth(w) ==> 0 <= LeftSlot(x, w) < |left| && left' == left[LeftSlot(x, w) := t[x]] && right' == right
    requires x % w >= LeftWidth(w) ==> 0 <= RightSlot(x, w) < |right| && right' == right[RightSlot(x, w) := t[x]] && left' == left
    requires forall y :: 0 <= y < x ==> Placed(left, right, t, w, y)
    ensures forall y :: 0 <= y <= x ==> Placed(left', right', t, w, y)
  {
    forall y | 0 <= y < x
      ensures Placed(left', right', t, w, y)
    {
      PlacedKeptOne(left, right, left', right', t, w, x, y);
    }
  }

  /// left and right are the first w1 and the last w2 columns of the
  /// rows×(w1 + w2) table t.
  predicate Split(t: seq<nat>, left: seq<nat>, right: seq<nat>, rows: nat, w1: nat, w2: nat)
  {
    MulNonNegative(rows, w1);
    MulNonNegative(rows, w2);
    |left| == rows * w1 && |right| == rows * w2 &&
    (forall r, c :: 0 <= r < rows && 0 <= c < w1 ==> Ptr(left, Cell(r, w1, c)) == Ptr(t, Cell(r, w1 + w2, c))) &&
    (forall r, c :: 0 <= r < rows && 0 <= c < w2 ==> Ptr(right, Cell(r, w2, c)) == Ptr(t, Cell(r, w1 + w2, w1 + c)))
  }

  /// The split loop of multiply_ptr with the intended stride: cell (r, c)
  /// of the rows×w table t goes to cell (r, c) of the left half when
  /// c < floor(w, 2), and to cell (r, c - floor(w, 2)) of the right half
  /// otherwise.
  method SplitColumns(t: seq<nat>, rows: nat, w: nat) returns (left: seq<nat>, right: seq<nat>)
    requires w > 0 && rows * w <= |t|
    ensures Split(t, left, right, rows, LeftWidth(w), RightWidth(w))
  {
    MulNonNegative(rows, LeftWidth(w));
    MulNonNegative(rows, RightWidth(w));
    left := seq(rows * LeftWidth(w), _ => 0);
    right := seq(rows * RightWidth(w), _ => 0);
    var x := 0;
    while x < rows * w
      invariant 0 <= x <= rows * w
      invariant |left| == rows * LeftWidth(w) && |right| == rows * RightWidth(w)
      invariant forall y :: 0 <= y < x ==> Placed(left, right, t, w, y)
    {
      SlotInside(x, w, rows);
      var left', right' := left, right;
      if x % w < LeftWidth(w) {
        left' := left[LeftSlot(x, w) := t[x]];
      } else {
        right' := right[RightSlot(x, w) := t[x]];
      }
      PlacedKept(left, right, left', right', t, w, x);
      left, right := left', right';
      x := x + 1;
    }
    SplitResult(left, right, t, rows, w);
  }

  /// Every entry placed means every cell of each half holds its source.
  lemma SplitResult(left: seq<nat>, right: seq<nat>, t: seq<nat>, rows: nat, w: nat)
    requires w > 0
    requires forall y :: 0 <= y < rows * w ==> Placed(left, right, t, w, y)
    ensures forall r, c :: 0 <= r < rows && 0 <= c < LeftWidth(w) ==>
      Ptr(left, Cell(r, LeftWidth(w), c)) == Ptr(t, Cell(r, w, c))
    ensures forall r, c :: 0 <= r < rows && 0 <= c < RightWidth(w) ==>
      Ptr(right, Cell(r, RightWidth(w), c)) == Ptr(t, Cell(r, w, LeftWidth(w) + c))
  {
    forall r, c | 0 <= r < rows && 0 <= c < w
      ensures c < LeftWidth(w) ==> Ptr(left, Cell(r, LeftWidth(w), c)) == Ptr(t, Cell(r, w, c))
      ensures c >= LeftWidth(w) ==> Ptr(right, Cell(r, RightWidth(w), c - LeftWidth(w))) == Ptr(t, Cell(r, w, c))
    {
      PlacedCell(left, right, t, rows, w, r, c);
    }
    forall r, c | 0 <= r < rows && 0 <= c < RightWidth(w)
      ensures Ptr(right, Cell(r, RightWidth(w), c)) == Ptr(t, Cell(r, w, LeftWidth(w) + c))
    {
      PlacedCell(left, right, t, rows, w, r, LeftWidth(w) + c);
    }
  }

  /// The entry placed for cell (r, c).
  lemma PlacedCell(left: seq<nat>, right: seq<nat>, t: seq<nat>, rows: nat, w: nat, r: nat, c: nat)
    requires w > 0 && r < rows && c < w
    requires forall y :: 0 <= y < rows * w ==> Placed(left, right, t, w, y)
    ensures c < LeftWidth(w) ==> Ptr(left, Cell(r, LeftWidth(w), c)) == Ptr(t, Cell(r, w, c))
    ensures c >= LeftWidth(w) ==> Ptr(right, Cell(r, RightWidth(w), c - LeftWidth(w))) == Ptr(t, Cell(r, w, c))
  {
    var y := Cell(r, w, c);
    CellInside(r, w, c, rows);
    DivModOfSum(r, w, c);
    SlotOfCell(r, w, c);
    assert Placed(left, right, t, w, y);
  }

  // ---------------------------------------------------------------------
  // multiply_ptr: c[i][j] += sum over k of a[i][k] * b[k][j], where every
  // entry is reached through a table of pointers

  /// The smallest dimension for which the product recurses
  /// (mat_mult_min_size).
  const MinSize: nat := 6

  function Max3(n: nat, m: nat, p: nat): (r: nat)
    ensures r >= n && r >= m && r >= p && (r == n || r == m || r == p)
  {
    if n >= m && n >= p then n else if p >= m then p else m
  }

  /// Every pointer of the rows×cols table t points inside a buffer of
  /// the given length.
  predicate Fits(t: seq<nat>, rows: nat, cols: nat, bound: nat)
  {
    MulNonNegative(rows, cols);
    rows * cols <= |t| &&
    forall r, c :: 0 <= r < rows && 0 <= c < cols ==> Ptr(t, Cell(r, cols, c)) < bound
  }

  /// Distinct cells of the rows×cols table t point to distinct places.
  predicate Injective(t: seq<nat>, rows: nat, cols: nat)
  {
    forall r, c, r', c' ::
      0 <= r < rows && 0 <= c < cols && 0 <= r' < rows && 0 <= c' < cols && (r != r' || c != c') ==>
      Ptr(t, Cell(r, cols, c)) != Ptr(t, Cell(r', cols, c'))
  }

  /// No cell of the rows×cols table t points to x.
  predicate Untouched(t: seq<nat>, rows: nat, cols: nat, x: nat)
  {
    forall r, c :: 0 <= r < rows && 0 <= c < cols ==> Ptr(t, Cell(r, cols, c)) != x
  }

  /// Going from buffer c0 to c1 added the product of the n×m matrix
  /// behind ap and the m×p matrix behind bp to the n×p matrix behind cp,
  /// and changed nothing else.
  predicate Accumulates(c0: seq<int>, c1: seq<int>, a: seq<int>, b: seq<int>,
                        ap: seq<nat>, bp: seq<nat>, cp: seq<nat>, n: nat, m: nat, p: nat)
  {
    |c1| == |c0| &&
    (forall i, j :: 0 <= i < n && 0 <= j < p ==>
      Get(c1, Ptr(cp, Cell(i, p, j))) == Get(c0, Ptr(cp, Cell(i, p, j))) + Dot(a, b, ap, bp, m, p, i, j)) &&
    (forall x :: 0 <= x < |c0| && Untouched(cp, n, p, x) ==> c1[x] == c0[x])
  }

  /// One cell of an accumulated product.
  lemma AccumulatesAt(c0: seq<int>, c1: seq<int>, a: seq<int>, b: seq<int>,
                      ap: seq<nat>, bp: seq<nat>, cp: seq<nat>, n: nat, m: nat, p: nat, i: nat, j: nat)
    requires Accumulates(c0, c1, a, b, ap, bp, cp, n, m, p) && i < n && j < p
    ensures Get(c1, Ptr(cp, Cell(i, p, j))) == Get(c0, Ptr(cp, Cell(i, p, j))) + Dot(a, b, ap, bp, m, p, i, j)
  {
  }

  /// Cell (i', j') comes before cell (i, j) in row-major order.
  predicate Before(i': nat, j': nat, i: nat, j: nat)
  {
    i' < i || (i' == i && j' < j)
  }

  /// The triple loop of multiply_ptr has accumulated every cell before
  /// (i, j) and no other.
  predicate Progress(c0: seq<int>, c1: seq<int>, a: seq<int>, b: seq<int>,
                     ap: seq<nat>, bp: seq<nat>, cp: seq<nat>, n: nat, m: nat, p: nat, i: nat, j: nat)
  {
    |c1| == |c0| &&
    (forall i', j' :: 0 <= i' < n && 0 <= j' < p ==>
      Get(c1, Ptr(cp, Cell(i', p, j'))) ==
      Get(c0, Ptr(cp, Cell(i', p, j'))) + (if Before(i', j', i, j) then Dot(a, b, ap, bp, m, p, i', j') else 0)) &&
    (forall x :: 0 <= x < |c0| && Untouched(cp, n, p, x) ==> c1[x] == c0[x])
  }

  lemma ProgressStart(c0: seq<int>, a: seq<int>, b: seq<int>, ap: seq<nat>, bp: seq<nat>, cp: seq<nat>, n: nat, m: nat, p: nat)
    ensures Progress(c0, c0, a, b, ap, bp, cp, n, m, p, 0, 0)
  {
  }

  /// Accumulating cell (i, j) advances the progress by one cell.
  lemma ProgressStep(c0: seq<int>, c1: seq<int>, c2: seq<int>, a: seq<int>, b: seq<int>,
                     ap: seq<nat>, bp: seq<nat>, cp: seq<nat>, n: nat, m: nat, p: nat, i: nat, j: nat)
    requires i < n && j < p && Injective(cp, n, p)
    requires Progress(c0, c1, a, b, ap, bp, cp, n, m, p, i, j)
    requires Ptr(cp, Cell(i, p, j)) < |c1|
    requires c2 == c1[Ptr(cp, Cell(i, p, j)) := c1[Ptr(cp, Cell(i, p, j))] + Dot(a, b, ap, bp, m, p, i, j)]
    ensures Progress(c0, c2, a, b, ap, bp, cp, n, m, p, i, j + 1)
  {
    var s := Ptr(cp, Cell(i, p, j));
    forall i', j' | 0 <= i' < n && 0 <= j' < p
      ensures Get(c2, Ptr(cp, Cell(i', p, j'))) ==
        Get(c0, Ptr(cp, Cell(i', p, j'))) + (if Before(i', j', i, j + 1) then Dot(a, b, ap, bp, m, p, i', j') else 0)
    {
      if i' != i || j' != j {
        assert Ptr(cp, Cell(i', p, j')) != s;
      }
    }
    forall x | 0 <= x < |c0| && Untouched(cp, n, p, x)
      ensures c2[x] == c0[x]
    {
      assert x != s;
    }
  }

  /// Finishing a row is starting the next.
  lemma ProgressRow(c0: seq<int>, c1: seq<int>, a: seq<int>, b: seq<int>,
                    ap: seq<nat>, bp: seq<nat>, cp: seq<nat>, n: nat, m: nat, p: nat, i: nat)
    requires Progress(c0, c1, a, b, ap, bp, cp, n, m, p, i, p)
    ensures Progress(c0, c1, a, b, ap, bp, cp, n, m, p, i + 1, 0)
  {
    forall i', j' | 0 <= i' < n && 0 <= j' < p
      ensures Before(i', j', i, p) == Before(i', j', i + 1, 0)
    {
    }
  }

  /// Every row done is the whole product accumulated.
  lemma ProgressDone(c0: seq<int>, c1: seq<int>, a: seq<int>, b: seq<int>,
                     ap: seq<nat>, bp: seq<nat>, cp: seq<nat>, n: nat, m: nat, p: nat)
    requires Progress(c0, c1, a, b, ap, bp, cp, n, m, p, n, 0)
    ensures Accumulates(c0, c1, a, b, ap, bp, cp, n, m, p)
  {
    forall i', j' | 0 <= i' < n && 0 <= j' < p
      ensures Before(i', j', n, 0)
    {
    }
  }

  /// Two sums whose terms read the same entries are equal.
  lemma DotCongruence(a: seq<int>, b: seq<int>, ap: seq<nat>, bp: seq<nat>, m: nat, p: nat, i: nat, j: nat,
                      aq: seq<nat>, bq: seq<nat>, mq: nat, q: nat, iq: nat, jq: nat, k: nat)
    requires forall l :: 0 <= l < k ==>
      Ptr(ap, Cell(i, m, l)) == Ptr(aq, Cell(iq, mq, l)) && Ptr(bp, Cell(l, p, j)) == Ptr(bq, Cell(l, q, jq))
    ensures Sum(Term(a, b, ap, bp, m, p, i, j), k) == Sum(Term(a, b, aq, bq, mq, q, iq, jq), k)
  {
    SumCongruence(Term(a, b, ap, bp, m, p, i, j), Term(a, b, aq, bq, mq, q, iq, jq), k);
  }

  /// Reading a table from row h on.
  lemma PtrShift(t: seq<nat>, h: nat, w: nat, r: nat, c: nat)
    requires h * w <= |t|
    ensures Ptr(t[h * w..], Cell(r, w, c)) == Ptr(t, Cell(h + r, w, c))
  {
    MulNonNegative(h, w);
    CellShift(h, r, w, c);
  }

  /// The k loop of multiply_ptr for cell (i, j).
  method AccumulateCell(a: seq<int>, b: seq<int>, ap: seq<nat>, bp: seq<nat>, cp: seq<nat>,
                        c: array<int>, n: nat, m: nat, p: nat, i: nat, j: nat)
    requires i < n && j < p
    requires Fits(ap, n, m, |a|) && Fits(bp, m, p, |b|) && Fits(cp, n, p, c.Length)
    modifies c
    ensures c[..] == old(c[..])[Ptr(cp, Cell(i, p, j)) := old(c[Ptr(cp, Cell(i, p, j))]) + Dot(a, b, ap, bp, m, p, i, j)]
  {
    CellInside(i, p, j, n);
    var s := cp[Cell(i, p, j)];
    ghost var f := Term(a, b, ap, bp, m, p, i, j);
    var k := 0;
    while k < m
      invariant 0 <= k <= m
      invariant c[..] == old(c[..])[s := old(c[s]) + Sum(f, k)]
    {
      CellInside(i, m, k, n);
      CellInside(k, p, j, m);
      c[s] := c[s] + a[ap[Cell(i, m, k)]] * b[bp[Cell(k, p, j)]];
      k := k + 1;
    }
  }

  /// The base case of multiply_ptr: the triple loop over i, j and k.
  method MulPtrLoops(a: seq<int>, b: seq<int>, ap: seq<nat>, bp: seq<nat>, cp: seq<nat>,
                     c: array<int>, n: nat, m: nat, p: nat)
    requires Fits(ap, n, m, |a|) && Fits(bp, m, p, |b|) && Fits(cp, n, p, c.Length) && Injective(cp, n, p)
    modifies c
    ensures Accumulates(old(c[..]), c[..], a, b, ap, bp, cp, n, m, p)
  {
    ghost var c0 := c[..];
    ProgressStart(c0, a, b, ap, bp, cp, n, m, p);
    var i := 0;
    while i < n
      invariant 0 <= i <= n
      invariant Progress(c0, c[..], a, b, ap, bp, cp, n, m, p, i, 0)
    {
      var j := 0;
      while j < p
        invariant 0 <= j <= p
        invariant Progress(c0, c[..], a, b, ap, bp, cp, n, m, p, i, j)
      {
        ghost var c1 := c[..];
        AccumulateCell(a, b, ap, bp, cp, c, n, m, p, i, j);
        ProgressStep(c0, c1, c[..], a, b, ap, bp, cp, n, m, p, i, j);
        j := j + 1;
      }
      ProgressRow(c0, c[..], a, b, ap, bp, cp, n, m, p, i);
      i := i + 1;
    }
    ProgressDone(c0, c[..], a, b, ap, bp, cp, n, m, p);
  }

  // ---------------------------------------------------------------------
  // The tables handed to the recursive calls

  /// The first h rows of a table.
  lemma FitsTop(t: seq<nat>, h: nat, rows: nat, w: nat, bound: nat)
    requires h <= rows && Fits(t, rows, w, bound)
    ensures Fits(t, h, w, bound)
  {
    MulMonotone(h, rows, w);
  }

  lemma InjectiveTop(t: seq<nat>, h: nat, rows: nat, w: nat)
    requires h <= rows && Injective(t, rows, w)
    ensures Injective(t, h, w)
  {
  }

  /// The table from row h on.
  lemma FitsBottom(t: seq<nat>, h: nat, h2: nat, w: nat, bound: nat)
    requires Fits(t, h + h2, w, bound)
    ensures h * w <= |t| && Fits(t[h * w..], h2, w, bound)
  {
    Distribute(h, h2, w);
    MulNonNegative(h2, w);
    forall r, c | 0 <= r < h2 && 0 <= c < w
      ensures Ptr(t[h * w..], Cell(r, w, c)) < bound
    {
      PtrShift(t, h, w, r, c);
    }
  }

  lemma InjectiveBottom(t: seq<nat>, h: nat, h2: nat, w: nat)
    requires h * w <= |t| && Injective(t, h + h2, w)
    ensures Injective(t[h * w..], h2, w)
  {
    forall r, c, r', c' | 0 <= r < h2 && 0 <= c < w && 0 <= r' < h2 && 0 <= c' < w && (r != r' || c != c')
      ensures Ptr(t[h * w..], Cell(r, w, c)) != Ptr(t[h * w..], Cell(r', w, c'))
    {
      PtrShift(t, h, w, r, c);
      PtrShift(t, h, w, r', c');
    }
  }

  /// The two halves of a split table.
  lemma FitsSplit(t: seq<nat>, left: seq<nat>, right: seq<nat>, rows: nat, w1: nat, w2: nat, bound: nat)
    requires Split(t, left, right, rows, w1, w2) && Fits(t, rows, w1 + w2, bound)
    ensures Fits(left, rows, w1, bound) && Fits(right, rows, w2, bound)
  {
  }

  lemma InjectiveSplit(t: seq<nat>, left: seq<nat>, right: seq<nat>, rows: nat, w1: nat, w2: nat)
    requires Split(t, left, right, rows, w1, w2) && Injective(t, rows, w1 + w2)
    ensures Injective(left, rows, w1) && Injective(right, rows, w2)
  {
  }

  // ---------------------------------------------------------------------
  // The recursive calls together compute the whole product

  /// The top n1 rows and the bottom n2 rows together.
  lemma CombineRows(c0: seq<int>, c1: seq<int>, c2: seq<int>, a: seq<int>, b: seq<int>,
                    ap: seq<nat>, bp: seq<nat>, cp: seq<nat>, n: nat, n1: nat, n2: nat, m: nat, p: nat)
    requires n == n1 + n2 && n1 * m <= |ap| && n1 * p <= |cp| && Injective(cp, n, p)
    requires Accumulates(c0, c1, a, b, ap, bp, cp, n1, m, p)
    requires Accumulates(c1, c2, a, b, ap[n1 * m..], bp, cp[n1 * p..], n2, m, p)
    ensures Accumulates(c0, c2, a, b, ap, bp, cp, n, m, p)
  {
    forall i, j | 0 <= i < n && 0 <= j < p
      ensures Get(c2, Ptr(cp, Cell(i, p, j))) == Get(c0, Ptr(cp, Cell(i, p, j))) + Dot(a, b, ap, bp, m, p, i, j)
    {
      if i < n1 {
        CombineRowsTop(c0, c1, c2, a, b, ap, bp, cp, n, n1, n2, m, p, i, j);
      } else {
        CombineRowsBottom(c0, c1, c2, a, b, ap, bp, cp, n, n1, n2, m, p, i - n1, j);
      }
    }
    forall x | 0 <= x < |c0| && Untouched(cp, n, p, x)
      ensures c2[x] == c0[x]
    {
      UntouchedRows(cp, n1, n2, p, x);
      AccumulatesKeeps(c0, c1, a, b, ap, bp, cp, n1, m, p, x);
      AccumulatesKeeps(c1, c2, a, b, ap[n1 * m..], bp, cp[n1 * p..], n2, m, p, x);
    }
  }

  /// A cell that the table leaves alone keeps its value.
  lemma AccumulatesKeeps(c0: seq<int>, c1: seq<int>, a: seq<int>, b: seq<int>,
                         ap: seq<nat>, bp: seq<nat>, cp: seq<nat>, n: nat, m: nat, p: nat, x: nat)
    requires Accumulates(c0, c1, a, b, ap, bp, cp, n, m, p) && Untouched(cp, n, p, x)
    ensures Get(c1, x) == Get(c0, x)
  {
  }

  /// A cell outside all n1 + n2 rows is outside the top and the bottom rows.
  lemma UntouchedRows(cp: seq<nat>, n1: nat, n2: nat, p: nat, x: nat)
    requires n1 * p <= |cp| && Untouched(cp, n1 + n2, p, x)
    ensures Untouched(cp, n1, p, x) && Untouched(cp[n1 * p..], n2, p, x)
  {
    forall r, c | 0 <= r < n2 && 0 <= c < p
      ensures Ptr(cp[n1 * p..], Cell(r, p, c)) != x
    {
      PtrShift(cp, n1, p, r, c);
    }
  }

  /// A cell of the top rows is not one of the bottom rows.
  lemma TopApart(cp: seq<nat>, n1: nat, n2: nat, p: nat, i: nat, j: nat)
    requires n1 * p <= |cp| && Injective(cp, n1 + n2, p) && i < n1 && j < p
    ensures Untouched(cp[n1 * p..], n2, p, Ptr(cp, Cell(i, p, j)))
  {
    forall r, c | 0 <= r < n2 && 0 <= c < p
      ensures Ptr(cp[n1 * p..], Cell(r, p, c)) != Ptr(cp, Cell(i, p, j))
    {
      PtrShift(cp, n1, p, r, c);
    }
  }

  /// A cell of the bottom rows is not one of the top rows.
  lemma BottomApart(cp: seq<nat>, n1: nat, n2: nat, p: nat, r: nat, j: nat)
    requires Injective(cp, n1 + n2, p) && r < n2 && j < p
    ensures Untouched(cp, n1, p, Ptr(cp, Cell(n1 + r, p, j)))
  {
    forall r', c' | 0 <= r' < n1 && 0 <= c' < p
      ensures Ptr(cp, Cell(r', p, c')) != Ptr(cp, Cell(n1 + r, p, j))
    {
      assert r' != n1 + r;
    }
  }

  /// Row r of the bottom matrix is row n1 + r of the whole.
  lemma DotShiftRows(a: seq<int>, b: seq<int>, ap: seq<nat>, bp: seq<nat>, n1: nat, m: nat, p: nat, r: nat, j: nat)
    requires n1 * m <= |ap|
    ensures Dot(a, b, ap[n1 * m..], bp, m, p, r, j) == Dot(a, b, ap, bp, m, p, n1 + r, j)
  {
    forall l | 0 <= l < m
      ensures Ptr(ap[n1 * m..], Cell(r, m, l)) == Ptr(ap, Cell(n1 + r, m, l))
    {
      PtrShift(ap, n1, m, r, l);
    }
    DotCongruence(a, b, ap[n1 * m..], bp, m, p, r, j, ap, bp, m, p, n1 + r, j, m);
  }

  /// Cell (i, j) of the top rows gets its sum from the top call and is
  /// left alone by the bottom call.
  lemma CombineRowsTop(c0: seq<int>, c1: seq<int>, c2: seq<int>, a: seq<int>, b: seq<int>,
                       ap: seq<nat>, bp: seq<nat>, cp: seq<nat>, n: nat, n1: nat, n2: nat, m: nat, p: nat, i: nat, j: nat)
    requires n == n1 + n2 && n1 * m <= |ap| && n1 * p <= |cp| && Injective(cp, n, p)
    requires i < n1 && j < p
    requires Accumulates(c0, c1, a, b, ap, bp, cp, n1, m, p)
    requires Accumulates(c1, c2, a, b, ap[n1 * m..], bp, cp[n1 * p..], n2, m, p)
    ensures Get(c2, Ptr(cp, Cell(i, p, j))) == Get(c0, Ptr(cp, Cell(i, p, j))) + Dot(a, b, ap, bp, m, p, i, j)
  {
    MulNonNegative(n1, m);
    MulNonNegative(n1, p);
    AccumulatesAt(c0, c1, a, b, ap, bp, cp, n1, m, p, i, j);
    TopApart(cp, n1, n2, p, i, j);
    AccumulatesKeeps(c1, c2, a, b, ap[n1 * m..], bp, cp[n1 * p..], n2, m, p, Ptr(cp, Cell(i, p, j)));
  }

  /// Cell (n1 + r, j) is left alone by the top call and gets its sum from
  /// the bottom call.
  lemma CombineRowsBottom(c0: seq<int>, c1: seq<int>, c2: seq<int>, a: seq<int>, b: seq<int>,
                          ap: seq<nat>, bp: seq<nat>, cp: seq<nat>, n: nat, n1: nat, n2: nat, m: nat, p: nat, r: nat, j: nat)
    requires n == n1 + n2 && n1 * m <= |ap| && n1 * p <= |cp| && Injective(cp, n, p)
    requires r < n2 && j < p
    requires Accumulates(c0, c1, a, b, ap, bp, cp, n1, m, p)
    requires Accumulates(c1, c2, a, b, ap[n1 * m..], bp, cp[n1 * p..], n2, m, p)
    ensures Get(c2, Ptr(cp, Cell(n1 + r, p, j))) ==
      Get(c0, Ptr(cp, Cell(n1 + r, p, j))) + Dot(a, b, ap, bp, m, p, n1 + r, j)
  {
    MulNonNegative(n1, m);
    MulNonNegative(n1, p);
    PtrShift(cp, n1, p, r, j);
    AccumulatesAt(c1, c2, a, b, ap[n1 * m..], bp, cp[n1 * p..], n2, m, p, r, j);
    BottomApart(cp, n1, n2, p, r, j);
    AccumulatesKeeps(c0, c1, a, b, ap, bp, cp, n1, m, p, Ptr(cp, Cell(n1 + r, p, j)));
    DotShiftRows(a, b, ap, bp, n1, m, p, r, j);
  }

  /// The first p1 columns and the last p2 columns together.
  lemma CombineCols(c0: seq<int>, c1: seq<int>, c2: seq<int>, a: seq<int>, b: seq<int>,
                    ap: seq<nat>, bp: seq<nat>, cp: seq<nat>, b1: seq<nat>, b2: seq<nat>, cp1: seq<nat>, cp2: seq<nat>,
                    n: nat, m: nat, p: nat, p1: nat, p2: nat)
    requires p == p1 + p2 && Split(bp, b1, b2, m, p1, p2) && Split(cp, cp1, cp2, n, p1, p2) && Injective(cp, n, p)
    requires Accumulates(c0, c1, a, b, ap, b1, cp1, n, m, p1)
    requires Accumulates(c1, c2, a, b, ap, b2, cp2, n, m, p2)
    ensures Accumulates(c0, c2, a, b, ap, bp, cp, n, m, p)
  {
    forall i, j | 0 <= i < n && 0 <= j < p
      ensures Get(c2, Ptr(cp, Cell(i, p, j))) == Get(c0, Ptr(cp, Cell(i, p, j))) + Dot(a, b, ap, bp, m, p, i, j)
    {
      if j < p1 {
        CombineColsLeft(c0, c1, c2, a, b, ap, bp, cp, b1, b2, cp1, cp2, n, m, p, p1, p2, i, j);
      } else {
        CombineColsRight(c0, c1, c2, a, b, ap, bp, cp, b1, b2, cp1, cp2, n, m, p, p1, p2, i, j - p1);
      }
    }
    forall x | 0 <= x < |c0| && Untouched(cp, n, p, x)
      ensures c2[x] == c0[x]
    {
      assert Untouched(cp1, n, p1, x);
      assert Untouched(cp2, n, p2, x);
    }
  }

  lemma CombineColsLeft(c0: seq<int>, c1: seq<int>, c2: seq<int>, a: seq<int>, b: seq<int>,
                        ap: seq<nat>, bp: seq<nat>, cp: seq<nat>, b1: seq<nat>, b2: seq<nat>, cp1: seq<nat>, cp2: seq<nat>,
                        n: nat, m: nat, p: nat, p1: nat, p2: nat, i: nat, j: nat)
    requires p == p1 + p2 && Split(bp, b1, b2, m, p1, p2) && Split(cp, cp1, cp2, n, p1, p2) && Injective(cp, n, p)
    requires i < n && j < p1
    requires Accumulates(c0, c1, a, b, ap, b1, cp1, n, m, p1)
    requires Accumulates(c1, c2, a, b, ap, b2, cp2, n, m, p2)
    ensures Get(c2, Ptr(cp, Cell(i, p, j))) == Get(c0, Ptr(cp, Cell(i, p, j))) + Dot(a, b, ap, bp, m, p, i, j)
  {
    AccumulatesAt(c0, c1, a, b, ap, b1, cp1, n, m, p1, i, j);
    LeftApart(cp, cp1, cp2, n, p, p1, p2, i, j);
    AccumulatesKeeps(c1, c2, a, b, ap, b2, cp2, n, m, p2, Ptr(cp, Cell(i, p, j)));
    DotCongruence(a, b, ap, b1, m, p1, i, j, ap, bp, m, p, i, j, m);
  }

  /// A cell of the left columns is not one of the right columns.
  lemma LeftApart(cp: seq<nat>, cp1: seq<nat>, cp2: seq<nat>, n: nat, p: nat, p1: nat, p2: nat, i: nat, j: nat)
    requires p == p1 + p2 && Split(cp, cp1, cp2, n, p1, p2) && Injective(cp, n, p) && i < n && j < p1
    ensures Ptr(cp1, Cell(i, p1, j)) == Ptr(cp, Cell(i, p, j))
    ensures Untouched(cp2, n, p2, Ptr(cp, Cell(i, p, j)))
  {
    forall r, c | 0 <= r < n && 0 <= c < p2
      ensures Ptr(cp2, Cell(r, p2, c)) != Ptr(cp, Cell(i, p, j))
    {
      assert Ptr(cp2, Cell(r, p2, c)) == Ptr(cp, Cell(r, p, p1 + c));
    }
  }

  /// A cell of the right columns is not one of the left columns.
  lemma RightApart(cp: seq<nat>, cp1: seq<nat>, cp2: seq<nat>, n: nat, p: nat, p1: nat, p2: nat, i: nat, j: nat)
    requires p == p1 + p2 && Split(cp, cp1, cp2, n, p1, p2) && Injective(cp, n, p) && i < n && j < p2
    ensures Ptr(cp2, Cell(i, p2, j)) == Ptr(cp, Cell(i, p, p1 + j))
    ensures Untouched(cp1, n, p1, Ptr(cp, Cell(i, p, p1 + j)))
  {
    forall r, c | 0 <= r < n && 0 <= c < p1
      ensures Ptr(cp1, Cell(r, p1, c)) != Ptr(cp, Cell(i, p, p1 + j))
    {
      assert Ptr(cp1, Cell(r, p1, c)) == Ptr(cp, Cell(r, p, c));
    }
  }

  lemma CombineColsRight(c0: seq<int>, c1: seq<int>, c2: seq<int>, a: seq<int>, b: seq<int>,
                         ap: seq<nat>, bp: seq<nat>, cp: seq<nat>, b1: seq<nat>, b2: seq<nat>, cp1: seq<nat>, cp2: seq<nat>,
                         n: nat, m: nat, p: nat, p1: nat, p2: nat, i: nat, j: nat)
    requires p == p1 + p2 && Split(bp, b1, b2, m, p1, p2) && Split(cp, cp1, cp2, n, p1, p2) && Injective(cp, n, p)
    requires i < n && j < p2
    requires Accumulates(c0, c1, a, b, ap, b1, cp1, n, m, p1)
    requires Accumulates(c1, c2, a, b, ap, b2, cp2, n, m, p2)
    ensures Get(c2, Ptr(cp, Cell(i, p, p1 + j))) ==
      Get(c0, Ptr(cp, Cell(i, p, p1 + j))) + Dot(a, b, ap, bp, m, p, i, p1 + j)
  {
    RightApart(cp, cp1, cp2, n, p, p1, p2, i, j);
    AccumulatesAt(c1, c2, a, b, ap, b2, cp2, n, m, p2, i, j);
    AccumulatesKeeps(c0, c1, a, b, ap, b1, cp1, n, m, p1, Ptr(cp, Cell(i, p, p1 + j)));
    DotCongruence(a, b, ap, b2, m, p2, i, j, ap, bp, m, p, i, p1 + j, m);
  }

  /// The first m1 and the last m2 terms of every sum together.
  lemma CombineInner(c0: seq<int>, c1: seq<int>, c2: seq<int>, a: seq<int>, b: seq<int>,
                     ap: seq<nat>, bp: seq<nat>, cp: seq<nat>, a1: seq<nat>, a2: seq<nat>,
                     n: nat, m: nat, m1: nat, m2: nat, p: nat)
    requires m == m1 + m2 && Split(ap, a1, a2, n, m1, m2) && m1 * p <= |bp|
    requires Accumulates(c0, c1, a, b, a1, bp, cp, n, m1, p)
    requires Accumulates(c1, c2, a, b, a2, bp[m1 * p..], cp, n, m2, p)
    ensures Accumulates(c0, c2, a, b, ap, bp, cp, n, m, p)
  {
    MulNonNegative(m1, p);
    forall i, j | 0 <= i < n && 0 <= j < p
      ensures Get(c2, Ptr(cp, Cell(i, p, j))) == Get(c0, Ptr(cp, Cell(i, p, j))) + Dot(a, b, ap, bp, m, p, i, j)
    {
      var s := Ptr(cp, Cell(i, p, j));
      AccumulatesAt(c0, c1, a, b, a1, bp, cp, n, m1, p, i, j);
      AccumulatesAt(c1, c2, a, b, a2, bp[m1 * p..], cp, n, m2, p, i, j);
      DotSplitInner(a, b, ap, bp, a1, a2, n, m, m1, m2, p, i, j);
    }
  }

  /// A sum over m = m1 + m2 terms is the sum over the first m1 columns of
  /// a plus the sum over its last m2 columns.
  lemma DotSplitInner(a: seq<int>, b: seq<int>, ap: seq<nat>, bp: seq<nat>, a1: seq<nat>, a2: seq<nat>,
                      n: nat, m: nat, m1: nat, m2: nat, p: nat, i: nat, j: nat)
    requires m == m1 + m2 && Split(ap, a1, a2, n, m1, m2) && m1 * p <= |bp| && i < n
    ensures Dot(a, b, ap, bp, m, p, i, j) ==
      Dot(a, b, a1, bp, m1, p, i, j) + Dot(a, b, a2, bp[m1 * p..], m2, p, i, j)
  {
    MulNonNegative(m1, p);
    DotSplitTail(a, b, ap, bp, a1, a2, n, m, m1, m2, p, i, j);
    DotSplitHead(a, b, ap, bp, a1, a2, n, m, m1, m2, p, i, j);
  }

  /// The sum over m terms is the sum of its first m1 terms and of the last
  /// m2, read through the right half of the split.
  lemma DotSplitTail(a: seq<int>, b: seq<int>, ap: seq<nat>, bp: seq<nat>, a1: seq<nat>, a2: seq<nat>,
                     n: nat, m: nat, m1: nat, m2: nat, p: nat, i: nat, j: nat)
    requires m == m1 + m2 && Split(ap, a1, a2, n, m1, m2) && m1 * p <= |bp| && i < n
    ensures Sum(Term(a, b, ap, bp, m, p, i, j), m) ==
      Sum(Term(a, b, ap, bp, m, p, i, j), m1) + Sum(Term(a, b, a2, bp[m1 * p..], m2, p, i, j), m2)
  {
    MulNonNegative(m1, p);
    var f := Term(a, b, ap, bp, m, p, i, j);
    var g := Term(a, b, a2, bp[m1 * p..], m2, p, i, j);
    forall l: nat | l < m2
      ensures g(l) == f(m1 + l)
    {
      TermShiftInner(a, b, ap, bp, a1, a2, n, m, m1, m2, p, i, j, l);
    }
    SumSplit(f, g, m1, m2);
  }

  /// The first m1 terms of the sum read through the left half of the split.
  lemma DotSplitHead(a: seq<int>, b: seq<int>, ap: seq<nat>, bp: seq<nat>, a1: seq<nat>, a2: seq<nat>,
                     n: nat, m: nat, m1: nat, m2: nat, p: nat, i: nat, j: nat)
    requires m == m1 + m2 && Split(ap, a1, a2, n, m1, m2) && i < n
    ensures Sum(Term(a, b, ap, bp, m, p, i, j), m1) == Dot(a, b, a1, bp, m1, p, i, j)
  {
    forall l | 0 <= l < m1
      ensures Ptr(ap, Cell(i, m, l)) == Ptr(a1, Cell(i, m1, l))
    {
      assert Ptr(a1, Cell(i, m1, l)) == Ptr(ap, Cell(i, m1 + m2, l));
    }
    DotCongruence(a, b, ap, bp, m, p, i, j, a1, bp, m1, p, i, j, m1);
  }

  lemma TermShiftInner(a: seq<int>, b: seq<int>, ap: seq<nat>, bp: seq<nat>, a1: seq<nat>, a2: seq<nat>,
                       n: nat, m: nat, m1: nat, m2: nat, p: nat, i: nat, j: nat, l: nat)
    requires m == m1 + m2 && Split(ap, a1, a2, n, m1, m2) && m1 * p <= |bp| && i < n && l < m2
    ensures Term(a, b, a2, bp[m1 * p..], m2, p, i, j)(l) == Term(a, b, ap, bp, m, p, i, j)(m1 + l)
  {
    MulNonNegative(m1, p);
    PtrShift(bp, m1, p, l, j);
    assert Ptr(a2, Cell(i, m2, l)) == Ptr(ap, Cell(i, m, m1 + l));
  }

  // ---------------------------------------------------------------------
  // multiply_ptr

  /// multiply_ptr, with the column splits at the intended stride: adds the
  /// product of the n×m matrix behind ap and the m×p matrix behind bp to
  /// the n×p matrix behind cp, and changes nothing else. The largest
  /// dimension is halved, rows first, then columns of the result, then
  /// the inner dimension, until all three are below MinSize.
  method MulPtr(a: seq<int>, b: seq<int>, ap: seq<nat>, bp: seq<nat>, cp: seq<nat>,
                c: array<int>, n: nat, m: nat, p: nat)
    requires n > 0 && m > 0 && p > 0
    requires Fits(ap, n, m, |a|) && Fits(bp, m, p, |b|) && Fits(cp, n, p, c.Length) && Injective(cp, n, p)
    modifies c
    ensures Accumulates(old(c[..]), c[..], a, b, ap, bp, cp, n, m, p)
    decreases n + m + p, 1
  {
    var big := Max3(n, m, p);
    if big < MinSize {
      MulPtrLoops(a, b, ap, bp, cp, c, n, m, p);
    } else if big == n {
      HalvesSum(n);
      MulPtrRows(a, b, ap, bp, cp, c, FloorDiv(n, 2), CeilDiv(n, 2), m, p);
    } else if big == p {
      HalvesSum(p);
      MulPtrCols(a, b, ap, bp, cp, c, n, m, p);
    } else {
      HalvesSum(m);
      MulPtrInner(a, b, ap, bp, cp, c, n, m, p);
    }
  }

  /// The row split: the top n1 = floor(n, 2) rows of a and c, then the
  /// remaining n2 rows, reached by advancing both tables n1 rows.
  method MulPtrRows(a: seq<int>, b: seq<int>, ap: seq<nat>, bp: seq<nat>, cp: seq<nat>,
                    c: array<int>, n1: nat, n2: nat, m: nat, p: nat)
    requires n1 > 0 && n2 > 0 && m > 0 && p > 0
    requires Fits(ap, n1 + n2, m, |a|) && Fits(bp, m, p, |b|) && Fits(cp, n1 + n2, p, c.Length) && Injective(cp, n1 + n2, p)
    modifies c
    ensures Accumulates(old(c[..]), c[..], a, b, ap, bp, cp, n1 + n2, m, p)
    decreases n1 + n2 + m + p, 0
  {
    ghost var c0 := c[..];
    FitsTop(ap, n1, n1 + n2, m, |a|);
    FitsTop(cp, n1, n1 + n2, p, c.Length);
    InjectiveTop(cp, n1, n1 + n2, p);
    FitsBottom(ap, n1, n2, m, |a|);
    FitsBottom(cp, n1, n2, p, c.Length);
    InjectiveBottom(cp, n1, n2, p);
    MulPtr(a, b, ap, bp, cp, c, n1, m, p);
    ghost var c1 := c[..];
    MulPtr(a, b, ap[n1 * m..], bp, cp[n1 * p..], c, n2, m, p);
    CombineRows(c0, c1, c[..], a, b, ap, bp, cp, n1 + n2, n1, n2, m, p);
  }

  /// The split of the result's columns: b and c are each split into their
  /// left floor(p, 2) and right ceil(p, 2) columns.
  method MulPtrCols(a: seq<int>, b: seq<int>, ap: seq<nat>, bp: seq<nat>, cp: seq<nat>,
                    c: array<int>, n: nat, m: nat, p: nat)
    requires n > 0 && m > 0 && p >= 2
    requires Fits(ap, n, m, |a|) && Fits(bp, m, p, |b|) && Fits(cp, n, p, c.Length) && Injective(cp, n, p)
    modifies c
    ensures Accumulates(old(c[..]), c[..], a, b, ap, bp, cp, n, m, p)
    decreases n + m + p, 0
  {
    ghost var c0 := c[..];
    var b1, b2 := SplitColumns(bp, m, p);
    var cp1, cp2 := SplitColumns(cp, n, p);
    var p1, p2 := LeftWidth(p), RightWidth(p);
    FitsSplit(bp, b1, b2, m, p1, p2, |b|);
    FitsSplit(cp, cp1, cp2, n, p1, p2, c.Length);
    InjectiveSplit(cp, cp1, cp2, n, p1, p2);
    MulPtr(a, b, ap, b1, cp1, c, n, m, p1);
    ghost var c1 := c[..];
    MulPtr(a, b, ap, b2, cp2, c, n, m, p2);
    CombineCols(c0, c1, c[..], a, b, ap, bp, cp, b1, b2, cp1, cp2, n, m, p, p1, p2);
  }

  /// The split of the inner dimension: a is split into its left
  /// floor(m, 2) and right ceil(m, 2) columns, and b is advanced by
  /// floor(m, 2) rows for the second half.
  method MulPtrInner(a: seq<int>, b: seq<int>, ap: seq<nat>, bp: seq<nat>, cp: seq<nat>,
                     c: array<int>, n: nat, m: nat, p: nat)
    requires n > 0 && m >= 2 && p > 0
    requires Fits(ap, n, m, |a|) && Fits(bp, m, p, |b|) && Fits(cp, n, p, c.Length) && Injective(cp, n, p)
    modifies c
    ensures Accumulates(old(c[..]), c[..], a, b, ap, bp, cp, n, m, p)
    decreases n + m + p, 0
  {
    ghost var c0 := c[..];
    var a1, a2 := SplitColumns(ap, n, m);
    var m1, m2 := LeftWidth(m), RightWidth(m);
    FitsSplit(ap, a1, a2, n, m1, m2, |a|);
    FitsBottom(bp, m1, m2, p, |b|);
    FitsTop(bp, m1, m1 + m2, p, |b|);
    MulPtr(a, b, a1, bp, cp, c, n, m1, p);
    ghost var c1 := c[..];
    MulPtr(a, b, a2, bp[m1 * p..], cp, c, n, m2, p);
    CombineInner(c0, c1, c[..], a, b, ap, bp, cp, a1, a2, n, m, m1, m2, p);
  }

  // ---------------------------------------------------------------------
  // Specification of the Matrix operations on the row-major entries

  /// Flat index x of a table with w columns is cell (x / w, x % w).
  lemma CellOf(x: nat, w: nat, rows: nat)
    requires w > 0 && x < rows * w
    ensures x / w < rows && x % w < w && Cell(x / w, w, x % w) == x
  {
    DivMod(x, w);
    if x / w >= rows {
      MulMonotone(rows, x / w, w);
    }
  }

  /// Cell (r, c) of a table with w columns is flat index r * w + c, and
  /// only that cell is.
  lemma CellParts(r: nat, w: nat, c: nat)
    requires c < w
    ensures Cell(r, w, c) / w == r && Cell(r, w, c) % w == c
  {
    DivModOfSum(r, w, c);
  }

  function Zeros(k: nat): (r: seq<int>)
    ensures |r| == k && forall x :: 0 <= x < k ==> r[x] == 0
  {
    seq(k, _ => 0)
  }

  /// The entries of the transposed m×n matrix of the n×m matrix v.
  function Transposed(v: seq<int>, n: nat, m: nat): (r: seq<int>)
    ensures |r| == |v|
  {
    if n == 0 then v else seq(|v|, x requires 0 <= x => Get(v, Cell(x % n, m, x / n)))
  }

  /// Entry (j, i) of the transpose is entry (i, j).
  lemma TransposedAt(v: seq<int>, n: nat, m: nat, i: nat, j: nat)
    requires |v| == n * m && i < n && j < m
    ensures Cell(j, n, i) < |v| && Cell(i, m, j) < |v|
    ensures Transposed(v, n, m)[Cell(j, n, i)] == v[Cell(i, m, j)]
  {
    CellInside(j, n, i, m);
    CellInside(i, m, j, n);
    CellParts(j, n, i);
  }

  /// Transposing twice gives the matrix back.
  lemma TransposeInvolution(v: seq<int>, n: nat, m: nat)
    requires |v| == n * m
    ensures Transposed(Transposed(v, n, m), m, n) == v
  {
    if n > 0 && m > 0 {
      forall x | 0 <= x < |v|
        ensures Transposed(Transposed(v, n, m), m, n)[x] == v[x]
      {
        TransposeTwiceAt(v, n, m, x);
      }
    }
  }

  lemma TransposeTwiceAt(v: seq<int>, n: nat, m: nat, x: nat)
    requires |v| == n * m && n > 0 && m > 0 && x < |v|
    ensures Transposed(Transposed(v, n, m), m, n)[x] == v[x]
  {
    var t := Transposed(v, n, m);
    var i, j := x / m, x % m;
    CellOf(x, m, n);
    TransposedAt(v, n, m, i, j);
    assert Transposed(t, m, n)[x] == Get(t, Cell(j, n, i));
  }

  function Plus(v: seq<int>, w: seq<int>): (r: seq<int>)
    requires |v| == |w|
    ensures |r| == |v| && forall x :: 0 <= x < |v| ==> r[x] == v[x] + w[x]
  {
    seq(|v|, x requires 0 <= x < |v| => v[x] + w[x])
  }

  function Minus(v: seq<int>, w: seq<int>): (r: seq<int>)
    requires |v| == |w|
    ensures |r| == |v| && forall x :: 0 <= x < |v| ==> r[x] == v[x] - w[x]
  {
    seq(|v|, x requires 0 <= x < |v| => v[x] - w[x])
  }

  function Negated(v: seq<int>): (r: seq<int>)
    ensures |r| == |v| && forall x :: 0 <= x < |v| ==> r[x] == -v[x]
  {
    seq(|v|, x requires 0 <= x < |v| => -v[x])
  }

  function Scaled(v: seq<int>, s: int): (r: seq<int>)
    ensures |r| == |v| && forall x :: 0 <= x < |v| ==> r[x] == v[x] * s
  {
    seq(|v|, x requires 0 <= x < |v| => v[x] * s)
  }

  /// Division of int as in C++: the quotient is truncated toward zero.
  function TruncDiv(x: int, d: int): (q: int)
    requires d != 0
  {
    var q := (if x < 0 then -x else x) / (if d < 0 then -d else d);
    if (x < 0) == (d < 0) then q else -q
  }

  function Abs(x: int): (r: int)
    ensures r >= 0
  {
    if x < 0 then -x else x
  }

  /// The truncated quotient: x - q * d has the sign of x and is smaller
  /// than d in magnitude.
  lemma TruncDivBounds(x: int, d: int)
    requires d != 0
    ensures var q := TruncDiv(x, d);
      (x >= 0 ==> 0 <= x - q * d < Abs(d)) && (x < 0 ==> -Abs(d) < x - q * d <= 0)
  {
    var ax, ad := Abs(x), Abs(d);
    DivMod(ax, ad);
    var q0: int := ax / ad;
    var q := TruncDiv(x, d);
    if x >= 0 && d > 0 {
      assert q * d == q0 * ad;
    } else if x >= 0 {
      assert q * d == (-q0) * (-ad) == q0 * ad;
    } else if d > 0 {
      assert q * d == (-q0) * ad == -(q0 * ad);
    } else {
      assert q * d == q0 * (-ad) == -(q0 * ad);
    }
  }

  /// Dividing an exact multiple gives the factor back.
  lemma TruncDivOfMultiple(y: int, d: int)
    requires d != 0
    ensures TruncDiv(y * d, d) == y
  {
    var ay, ad := if y < 0 then -y else y, if d < 0 then -d else d;
    assert (if y * d < 0 then -(y * d) else y * d) == ay * ad;
    DivModOfSum(ay, ad, 0);
    if y * d == 0 {
      assert y == 0;
    }
  }

  function Quotient(v: seq<int>, s: int): (r: seq<int>)
    requires s != 0
    ensures |r| == |v| && forall x :: 0 <= x < |v| ==> r[x] == TruncDiv(v[x], s)
  {
    seq(|v|, x requires 0 <= x < |v| => TruncDiv(v[x], s))
  }

  /// Subtracting undoes adding.
  lemma MinusUndoesPlus(v: seq<int>, w: seq<int>)
    requires |v| == |w|
    ensures Minus(Plus(v, w), w) == v
  {
  }

  /// Subtracting is adding the negation, and negating twice is the
  /// identity.
  lemma MinusIsPlusNegated(v: seq<int>, w: seq<int>)
    requires |v| == |w|
    ensures Minus(v, w) == Plus(v, Negated(w)) && Negated(Negated(w)) == w
  {
  }

  /// Dividing by the scalar undoes scaling by it.
  lemma QuotientUndoesScaled(v: seq<int>, s: int)
    requires s != 0
    ensures Quotient(Scaled(v, s), s) == v
  {
    forall x | 0 <= x < |v|
      ensures TruncDiv(v[x] * s, s) == v[x]
    {
      TruncDivOfMultiple(v[x], s);
    }
  }

  /// The result of operator<=> on column vectors.
  datatype Ordering = Less | Equivalent | Greater
  {
    function Flip(): Ordering
    {
      match this
      case Less => Greater
      case Equivalent => Equivalent
      case Greater => Less
    }
  }

  /// Lexicographic comparison: the first entry that differs decides.
  function Lex(v: seq<int>, w: seq<int>): Ordering
    requires |v| == |w|
  {
    if |v| == 0 then Equivalent
    else if v[0] < w[0] then Less
    else if w[0] < v[0] then Greater
    else Lex(v[1..], w[1..])
  }

  /// Swapping the operands flips the ordering.
  lemma {:induction false} LexFlip(v: seq<int>, w: seq<int>)
    requires |v| == |w|
    ensures Lex(w, v) == Lex(v, w).Flip()
  {
    if |v| > 0 && v[0] == w[0] {
      LexFlip(v[1..], w[1..]);
    }
  }

  /// Equivalent exactly when equal; Less exactly when the first entry
  /// that differs is smaller.
  lemma {:induction false} LexEquivalent(v: seq<int>, w: seq<int>)
    requires |v| == |w|
    ensures Lex(v, w) == Equivalent <==> v == w
  {
    if |v| > 0 {
      LexEquivalent(v[1..], w[1..]);
      if v[0] == w[0] {
        assert v == [v[0]] + v[1..] && w == [w[0]] + w[1..];
      }
    }
  }

  lemma {:induction false} LexLess(v: seq<int>, w: seq<int>, k: nat)
    requires |v| == |w| && k < |v| && v[..k] == w[..k]
    ensures Lex(v, w) == Less <==> v[k] < w[k] || (v[k] == w[k] && Lex(v[k + 1..], w[k + 1..]) == Less)
  {
    if k > 0 {
      assert v[1..][..k - 1] == v[1..k] && w[1..][..k - 1] == w[1..k];
      assert v[0] == v[..k][0] == w[..k][0] == w[0];
      LexLess(v[1..], w[1..], k - 1);
      assert v[1..][k - 1 + 1..] == v[k + 1..] && w[1..][k - 1 + 1..] == w[k + 1..];
    }
  }

  /// The entries of the n×p product of the n×m matrix v and the m×p
  /// matrix w.
  function Product(v: seq<int>, w: seq<int>, n: nat, m: nat, p: nat): (r: seq<int>)
    ensures |r| == n * p
  {
    MulNonNegative(n, p);
    if p == 0 then [] else seq(n * p, x requires 0 <= x => Dot(v, w, Iota(|v|), Iota(|w|), m, p, x / p, x % p))
  }

  /// The k-th term of entry (i, j) of the product of the row-major
  /// matrices v (with m columns) and w (with p columns).
  function ValueTerm(v: seq<int>, w: seq<int>, m: nat, p: nat, i: nat, j: nat): nat -> int
  {
    (k: nat) => Get(v, Cell(i, m, k)) * Get(w, Cell(k, p, j))
  }

  /// Entry (i, j) of the product is the sum over k of v[i][k] * w[k][j].
  lemma ProductAt(v: seq<int>, w: seq<int>, n: nat, m: nat, p: nat, i: nat, j: nat)
    requires |v| == n * m && |w| == m * p && i < n && j < p
    ensures Cell(i, p, j) < n * p
    ensures Product(v, w, n, m, p)[Cell(i, p, j)] == Sum(ValueTerm(v, w, m, p, i, j), m)
  {
    CellInside(i, p, j, n);
    CellParts(i, p, j);
    var f := Term(v, w, Iota(|v|), Iota(|w|), m, p, i, j);
    var g := ValueTerm(v, w, m, p, i, j);
    forall k: nat | k < m
      ensures f(k) == g(k)
    {
      CellInside(i, m, k, n);
      CellInside(k, p, j, m);
    }
    SumCongruence(f, g, m);
  }

  /// The entries diagonal() writes, as written: every (m + 1)-th flat
  /// index, counting from 0, gets s.
  function StrideFilled(v: seq<int>, m: nat, s: int): (r: seq<int>)
    ensures |r| == |v| && forall x :: 0 <= x < |v| ==> r[x] == (if OnStride(x, m + 1) then s else v[x])
  {
    seq(|v|, x requires 0 <= x < |v| => if OnStride(x, m + 1) then s else v[x])
  }

  /// Flat index x of a matrix with m columns is on the main diagonal.
  predicate OnDiagonal(x: nat, m: nat)
  {
    m > 0 && x / m == x % m
  }

  /// The entries with the main diagonal set to s.
  function DiagonalFilled(v: seq<int>, m: nat, s: int): (r: seq<int>)
    ensures |r| == |v| && forall x :: 0 <= x < |v| ==> r[x] == (if OnDiagonal(x, m) then s else v[x])
  {
    seq(|v|, x requires 0 <= x < |v| => if OnDiagonal(x, m) then s else v[x])
  }

  /// For an n×m matrix with n <= m + 1 the stride lands exactly on the
  /// diagonal.
  lemma StrideIsDiagonal(n: nat, m: nat, x: nat)
    requires n <= m + 1 && x < n * m
    ensures x % (m + 1) == 0 <==> OnDiagonal(x, m)
  {
    if OnDiagonal(x, m) {
      DiagonalOnStride(m, x);
    }
    if x % (m + 1) == 0 {
      StrideOnDiagonal(n, m, x);
    }
  }

  lemma DiagonalOnStride(m: nat, x: nat)
    requires OnDiagonal(x, m)
    ensures x % (m + 1) == 0
  {
    DivMod(x, m);
    var r := x / m;
    assert x == r * (m + 1);
    DivModOfSum(r, m + 1, 0);
  }

  lemma StrideOnDiagonal(n: nat, m: nat, x: nat)
    requires n <= m + 1 && x < n * m && x % (m + 1) == 0
    ensures OnDiagonal(x, m)
  {
    DivMod(x, m + 1);
    var k := x / (m + 1);
    assert x == k * m + k;
    if k < m {
      DivModOfSum(k, m, k);
    } else {
      MulMonotone(m, k, m + 1);
      MulMonotone(n, m + 1, m);
    }
  }

  /// With n <= m + 1 the as-written diagonal() sets the diagonal.
  lemma StrideFilledIsDiagonal(v: seq<int>, n: nat, m: nat, s: int)
    requires |v| == n * m && n <= m + 1
    ensures StrideFilled(v, m, s) == DiagonalFilled(v, m, s)
  {
    forall x | 0 <= x < |v|
      ensures StrideFilled(v, m, s)[x] == DiagonalFilled(v, m, s)[x]
    {
      StrideIsDiagonal(n, m, x);
    }
  }

  /// For a 3×1 matrix the as-written diagonal() also sets entry (2, 0),
  /// which is not on the diagonal: Identity() of that shape is [1, 0, 1].
  lemma StrideLeavesDiagonal()
    ensures StrideFilled([0, 0, 0], 1, 1) == [1, 0, 1]
    ensures !OnDiagonal(2, 1) && DiagonalFilled([0, 0, 0], 1, 1) == [1, 0, 0]
  {
    assert StrideFilled([0, 0, 0], 1, 1)[2] == 1;
    assert DiagonalFilled([0, 0, 0], 1, 1)[2] == 0;
  }

  /// Two multiples of k that are less than k apart are equal.
  /// x is a multiple of the stride k.
  predicate OnStride(x: nat, k: nat)
  {
    k > 0 && x % k == 0
  }

  /// The next multiple of k after i is i + k.
  lemma StrideNext(i: nat, k: nat)
    requires OnStride(i, k)
    ensures OnStride(i + k, k)
    ensures forall x: nat :: i < x < i + k ==> !OnStride(x, k)
  {
    DivModOfSum(i / k + 1, k, 0);
    DivMod(i, k);
    Distribute(i / k, 1, k);
    forall x: nat | i < x < i + k && OnStride(x, k)
      ensures false
    {
      StrideStep(i, x, k);
    }
  }

  lemma StrideStep(i: nat, x: nat, k: nat)
    requires k > 0 && i % k == 0 && x % k == 0 && i <= x < i + k
    ensures x == i
  {
    DivMod(i, k);
    DivMod(x, k);
    if x / k > i / k {
      MulMonotone(i / k + 1, x / k, k);
      Distribute(i / k, 1, k);
    } else if x / k < i / k {
      MulMonotone(x / k, i / k, k);
    }
  }

  /// Cell (i, i) is on the diagonal, and the diagonal cell with row i is
  /// cell (i, i).
  lemma DiagonalCell(i: nat, m: nat, x: nat)
    requires i < m
    ensures OnDiagonal(Cell(i, m, i), m)
    ensures OnDiagonal(x, m) && x / m == i ==> x == Cell(i, m, i)
  {
    CellParts(i, m, i);
    DivMod(x, m);
  }

  /// The identity pointer table, built by the loop of multiply that points
  /// entry x at element x.
  method PointerTable(k: nat) returns (t: seq<nat>)
    ensures t == Iota(k)
  {
    t := [];
    var x := 0;
    while x < k
      invariant 0 <= x <= k && t == Iota(x)
    {
      t := t + [x];
      x := x + 1;
    }
  }

  lemma IotaFits(rows: nat, w: nat)
    ensures Fits(Iota(rows * w), rows, w, rows * w) && Injective(Iota(rows * w), rows, w)
  {
    MulNonNegative(rows, w);
    forall r, c | 0 <= r < rows && 0 <= c < w
      ensures Ptr(Iota(rows * w), Cell(r, w, c)) == Cell(r, w, c) < rows * w
    {
      CellInside(r, w, c, rows);
    }
    forall r, c, r', c' | 0 <= r < rows && 0 <= c < w && 0 <= r' < rows && 0 <= c' < w && (r != r' || c != c')
      ensures Cell(r, w, c) != Cell(r', w, c')
    {
      CellParts(r, w, c);
      CellParts(r', w, c');
    }
  }

  /// Accumulating through identity tables adds the product.
  lemma AccumulatedProduct(c0: seq<int>, c1: seq<int>, a: seq<int>, b: seq<int>, n: nat, m: nat, p: nat)
    requires |a| == n * m && |b| == m * p && |c0| == n * p && p > 0
    requires Accumulates(c0, c1, a, b, Iota(n * m), Iota(m * p), Iota(n * p), n, m, p)
    ensures c1 == Plus(c0, Product(a, b, n, m, p))
  {
    assert |c1| == |c0|;
    forall x | 0 <= x < |c0|
      ensures c1[x] == c0[x] + Product(a, b, n, m, p)[x]
    {
      AccumulatedProductAt(c0, c1, a, b, n, m, p, x);
    }
  }

  lemma AccumulatedProductAt(c0: seq<int>, c1: seq<int>, a: seq<int>, b: seq<int>, n: nat, m: nat, p: nat, x: nat)
    requires |a| == n * m && |b| == m * p && |c0| == n * p && p > 0 && x < |c0|
    requires Accumulates(c0, c1, a, b, Iota(n * m), Iota(m * p), Iota(n * p), n, m, p)
    ensures c1[x] == c0[x] + Product(a, b, n, m, p)[x]
  {
    CellOf(x, p, n);
    AccumulatesAt(c0, c1, a, b, Iota(n * m), Iota(m * p), Iota(n * p), n, m, p, x / p, x % p);
  }

  /// The innermost loop of the small-size branch of multiply: the sum
  /// over k of a[i][k] * b[k][j].
  method EntrySum(a: seq<int>, b: seq<int>, n: nat, m: nat, p: nat, i: nat, j: nat) returns (sum: int)
    requires |a| == n * m && |b| == m * p && i < n && j < p
    ensures sum == Get(Product(a, b, n, m, p), Cell(i, p, j))
  {
    sum := 0;
    var k := 0;
    while k < m
      invariant 0 <= k <= m && sum == Sum(ValueTerm(a, b, m, p, i, j), k)
    {
      CellInside(i, m, k, n);
      CellInside(k, p, j, m);
      sum := sum + a[Cell(i, m, k)] * b[Cell(k, p, j)];
      k := k + 1;
    }
    ProductAt(a, b, n, m, p, i, j);
  }

  /// The small-size branch of multiply: each entry (i, j) of c, in
  /// row-major order, is set to the sum over k of a[i][k] * b[k][j].
  method MultiplyLoops(a: seq<int>, b: seq<int>, c: array<int>, n: nat, m: nat, p: nat)
    requires |a| == n * m && |b| == m * p && c.Length == n * p
    modifies c
    ensures c[..] == Product(a, b, n, m, p)
  {
    ghost var prod := Product(a, b, n, m, p);
    var i := 0;
    while i < n
      invariant 0 <= i <= n
      invariant forall x :: 0 <= x < Cell(i, p, 0) && x < c.Length ==> c[x] == prod[x]
    {
      var j := 0;
      while j < p
        invariant 0 <= j <= p
        invariant forall x :: 0 <= x < Cell(i, p, j) && x < c.Length ==> c[x] == prod[x]
      {
        var sum := EntrySum(a, b, n, m, p, i, j);
        CellInside(i, p, j, n);
        c[Cell(i, p, j)] := sum;
        j := j + 1;
      }
      Distribute(i, 1, p);
      i := i + 1;
    }
    MulNonNegative(n, p);
    assert c[..] == prod;
  }

  /// detail::multiply: for small sizes the triple loop sets c to the
  /// product; otherwise identity pointer tables are built and multiply_ptr
  /// adds the product to c, which throws when a dimension is zero.
  method MultiplyArrays(a: seq<int>, b: seq<int>, c: array<int>, n: nat, m: nat, p: nat) returns (thrown: bool)
    requires |a| == n * m && |b| == m * p && c.Length == n * p
    modifies c
    ensures thrown <==> Max3(n, m, p) >= MinSize && (n == 0 || m == 0 || p == 0)
    ensures thrown ==> c[..] == old(c[..])
    ensures !thrown && Max3(n, m, p) < MinSize ==> c[..] == Product(a, b, n, m, p)
    ensures !thrown && Max3(n, m, p) >= MinSize ==> c[..] == Plus(old(c[..]), Product(a, b, n, m, p))
  {
    thrown := false;
    if Max3(n, m, p) < MinSize {
      MultiplyLoops(a, b, c, n, m, p);
    } else {
      var ap := PointerTable(n * m);
      var bp := PointerTable(m * p);
      var cp := PointerTable(n * p);
      if n == 0 || m == 0 || p == 0 {
        thrown := true;
      } else {
        IotaFits(n, m);
        IotaFits(m, p);
        IotaFits(n, p);
        MulPtr(a, b, ap, bp, cp, c, n, m, p);
        AccumulatedProduct(old(c[..]), c[..], a, b, n, m, p);
      }
    }
  }

  // ---------------------------------------------------------------------
  // The Matrix class: rows×cols entries stored row-major in mat

  class Matrix {
    const rows: nat
    const cols: nat
    const mat: array<int>

    predicate Valid()
    {
      mat.Length == rows * cols
    }

    /// Matrix(): every entry value-initialised to zero.
    constructor Zero(n: nat, m: nat)
      ensures rows == n && cols == m && Valid() && fresh(mat)
      ensures mat[..] == Zeros(n * m)
    {
      rows, cols := n, m;
      MulNonNegative(n, m);
      mat := new int[n * m];
      new;
      var x := 0;
      while x < mat.Length
        invariant 0 <= x <= mat.Length
        invariant forall y :: 0 <= y < x ==> mat[y] == 0
        modifies mat
      {
        mat[x] := 0;
        x := x + 1;
      }
    }

    /// Matrix(s): diagonal(s) on a fresh buffer, so s at every (m + 1)-th
    /// entry, which is the main diagonal when n <= m + 1; the other entries
    /// are not initialised by the constructor.
    constructor Scalar(n: nat, m: nat, s: int)
      ensures rows == n && cols == m && Valid() && fresh(mat)
      ensures forall x :: 0 <= x < mat.Length && OnStride(x, m + 1) ==> mat[x] == s
      ensures n <= m + 1 ==> forall x :: 0 <= x < mat.Length && OnDiagonal(x, m) ==> mat[x] == s
    {
      rows, cols := n, m;
      MulNonNegative(n, m);
      mat := new int[n * m];
      new;
      ghost var before := mat[..];
      Diagonal(s);
      if n <= m + 1 {
        StrideFilledIsDiagonal(before, n, m, s);
      }
    }

    /// Matrix(vals): the entries of vals, in row-major order.
    constructor FromValues(n: nat, m: nat, vals: seq<int>)
      requires |vals| == n * m
      ensures rows == n && cols == m && Valid() && fresh(mat)
      ensures mat[..] == vals
    {
      rows, cols := n, m;
      mat := new int[|vals|];
      new;
      var x := 0;
      while x < mat.Length
        invariant 0 <= x <= mat.Length
        invariant forall y :: 0 <= y < x ==> mat[y] == vals[y]
        modifies mat
      {
        mat[x] := vals[x];
        x := x + 1;
      }
    }

    /// Matrix(arg0, arg1, ...): the arguments fill the first entries in
    /// row-major order, the rest are zero. Two to n·m arguments compile.
    constructor FromArgs(n: nat, m: nat, args: seq<int>)
      requires 2 <= |args| <= n * m
      ensures rows == n && cols == m && Valid() && fresh(mat)
      ensures mat[..] == args + Zeros(n * m - |args|)
    {
      rows, cols := n, m;
      mat := new int[n * m];
      new;
      var x := 0;
      while x < mat.Length
        invariant 0 <= x <= mat.Length
        invariant forall y :: 0 <= y < x ==> mat[y] == 0
        modifies mat
      {
        mat[x] := 0;
        x := x + 1;
      }
      x := 0;
      while x < |args|
        invariant 0 <= x <= |args|
        invariant forall y :: 0 <= y < x ==> mat[y] == args[y]
        invariant forall y :: x <= y < mat.Length ==> mat[y] == (if y < |args| then mat[y] else 0)
        invariant forall y :: |args| <= y < mat.Length ==> mat[y] == 0
        modifies mat
      {
        mat[x] := args[x];
        x := x + 1;
      }
    }

    /// The copy constructor.
    constructor Copy(other: Matrix)
      requires other.Valid()
      ensures rows == other.rows && cols == other.cols && Valid() && fresh(mat)
      ensures mat[..] == other.mat[..]
    {
      rows, cols := other.rows, other.cols;
      mat := new int[other.mat.Length];
      new;
      var x := 0;
      while x < mat.Length
        invariant 0 <= x <= mat.Length
        invariant forall y :: 0 <= y < x ==> mat[y] == other.mat[y]
        modifies mat
      {
        mat[x] := other.mat[x];
        x := x + 1;
      }
    }

    /// operator(): entry (i, j).
    function At(i: nat, j: nat): int
      requires Valid() && i < rows && j < cols
      reads mat
    {
      CellInside(i, cols, j, rows);
      mat[Cell(i, cols, j)]
    }

    /// diagonal(s), as written: every (cols + 1)-th entry, counting from
    /// the first, becomes s.
    method Diagonal(s: int)
      requires Valid()
      modifies mat
      ensures mat[..] == StrideFilled(old(mat[..]), cols, s)
    {
      var stride := cols + 1;
      var i := 0;
      while i < mat.Length
        invariant OnStride(i, stride)
        invariant forall x :: 0 <= x < mat.Length ==>
          mat[x] == (if OnStride(x, stride) && x < i then s else old(mat[x]))
      {
        mat[i] := s;
        StrideNext(i, stride);
        i := i + stride;
      }
    }

    /// diagonal(s) as intended: entry (i, i) becomes s for every
    /// i < min(rows, cols), and no other entry changes.
    method SetDiagonal(s: int)
      requires Valid()
      modifies mat
      ensures mat[..] == DiagonalFilled(old(mat[..]), cols, s)
    {
      var i := 0;
      while i < rows && i < cols
        invariant 0 <= i <= rows
        invariant forall x :: 0 <= x < mat.Length ==>
          mat[x] == (if OnDiagonal(x, cols) && x / cols < i then s else old(mat[x]))
      {
        CellInside(i, cols, i, rows);
        forall x | 0 <= x < mat.Length
          ensures OnDiagonal(x, cols) && x / cols == i ==> x == Cell(i, cols, i)
        {
          DiagonalCell(i, cols, x);
        }
        CellParts(i, cols, i);
        mat[Cell(i, cols, i)] := s;
        i := i + 1;
      }
      forall x | 0 <= x < mat.Length && OnDiagonal(x, cols)
        ensures x / cols < i
      {
        CellOf(x, cols, rows);
      }
    }

    /// Identity(s): zero except for s at every (m + 1)-th entry, which is
    /// the main diagonal when n <= m + 1.
    static method Identity(n: nat, m: nat, s: int) returns (r: Matrix)
      ensures fresh(r) && fresh(r.mat) && r.rows == n && r.cols == m && r.Valid()
      ensures r.mat[..] == StrideFilled(Zeros(n * m), m, s)
      ensures n <= m + 1 ==> r.mat[..] == DiagonalFilled(Zeros(n * m), m, s)
    {
      r := new Matrix.Zero(n, m);
      r.Diagonal(s);
      if n <= m + 1 {
        StrideFilledIsDiagonal(Zeros(n * m), n, m, s);
      }
    }

    /// fill(s): every entry becomes s.
    method Fill(s: int)
      requires Valid()
      modifies mat
      ensures forall x :: 0 <= x < mat.Length ==> mat[x] == s
    {
      var x := 0;
      while x < mat.Length
        invariant 0 <= x <= mat.Length
        invariant forall y :: 0 <= y < x ==> mat[y] == s
      {
        mat[x] := s;
        x := x + 1;
      }
    }

    /// transpose(): the cols×rows matrix whose entry (j, i) is entry (i, j).
    method Transpose() returns (res: Matrix)
      requires Valid()
      ensures fresh(res) && fresh(res.mat) && res.rows == cols && res.cols == rows && res.Valid()
      ensures res.mat[..] == Transposed(mat[..], rows, cols)
    {
      res := new Matrix.Zero(cols, rows);
      var i := 0;
      while i < rows
        invariant 0 <= i <= rows
        invariant TransposedUpTo(res.mat[..], mat[..], rows, cols, i, 0)
      {
        var j := 0;
        while j < cols
          invariant 0 <= j <= cols
          invariant TransposedUpTo(res.mat[..], mat[..], rows, cols, i, j)
        {
          TransposedUpToStep(res.mat[..], mat[..], rows, cols, i, j);
          res.mat[Cell(j, rows, i)] := mat[Cell(i, cols, j)];
          j := j + 1;
        }
        i := i + 1;
      }
      TransposedUpToAll(res.mat[..], mat[..], rows, cols);
    }

    /// operator<=> on column vectors (cols == 1): the first entry that
    /// differs decides.
    method Compare(rhs: Matrix) returns (r: Ordering)
      requires Valid() && rhs.Valid() && rhs.rows == rows && rhs.cols == cols && cols == 1
      ensures r == Lex(mat[..], rhs.mat[..])
    {
      var i := 0;
      while i < mat.Length
        invariant 0 <= i <= mat.Length
        invariant Lex(mat[..], rhs.mat[..]) == Lex(mat[i..], rhs.mat[i..])
      {
        assert mat[i..][1..] == mat[i + 1..] && rhs.mat[i..][1..] == rhs.mat[i + 1..];
        if mat[i] < rhs.mat[i] {
          return Less;
        } else if rhs.mat[i] < mat[i] {
          return Greater;
        }
        i := i + 1;
      }
      return Equivalent;
    }

    /// operator=: every entry copied from other.
    method Assign(other: Matrix)
      requires Valid() && other.Valid() && other.rows == rows && other.cols == cols
      modifies mat
      ensures mat[..] == old(other.mat[..])
    {
      var x := 0;
      while x < mat.Length
        invariant 0 <= x <= mat.Length
        invariant forall y :: 0 <= y < x ==> mat[y] == old(other.mat[y])
        invariant forall y :: x <= y < mat.Length ==> other.mat[y] == old(other.mat[y])
      {
        mat[x] := other.mat[x];
        x := x + 1;
      }
    }

    /// Unary operator-.
    method Negate() returns (res: Matrix)
      requires Valid()
      ensures fresh(res) && fresh(res.mat) && res.rows == rows && res.cols == cols && res.Valid()
      ensures res.mat[..] == Negated(mat[..])
    {
      res := new Matrix.Zero(rows, cols);
      var x := 0;
      while x < mat.Length
        invariant 0 <= x <= mat.Length
        invariant forall y :: 0 <= y < x ==> res.mat[y] == -mat[y]
      {
        res.mat[x] := -mat[x];
        x := x + 1;
      }
    }

    /// operator+.
    method Add(rhs: Matrix) returns (res: Matrix)
      requires Valid() && rhs.Valid() && rhs.rows == rows && rhs.cols == cols
      ensures fresh(res) && fresh(res.mat) && res.rows == rows && res.cols == cols && res.Valid()
      ensures res.mat[..] == Plus(mat[..], rhs.mat[..])
    {
      res := new Matrix.Zero(rows, cols);
      var x := 0;
      while x < mat.Length
        invariant 0 <= x <= mat.Length
        invariant forall y :: 0 <= y < x ==> res.mat[y] == mat[y] + rhs.mat[y]
      {
        res.mat[x] := mat[x] + rhs.mat[x];
        x := x + 1;
      }
    }

    /// operator+=: also correct when rhs is this matrix.
    method AddAssign(rhs: Matrix)
      requires Valid() && rhs.Valid() && rhs.rows == rows && rhs.cols == cols
      modifies mat
      ensures mat[..] == Plus(old(mat[..]), old(rhs.mat[..]))
    {
      var x := 0;
      while x < mat.Length
        invariant 0 <= x <= mat.Length
        invariant forall y :: 0 <= y < x ==> mat[y] == old(mat[y]) + old(rhs.mat[y])
        invariant forall y :: x <= y < mat.Length ==> mat[y] == old(mat[y]) && rhs.mat[y] == old(rhs.mat[y])
      {
        mat[x] := mat[x] + rhs.mat[x];
        x := x + 1;
      }
    }

    /// Binary operator-.
    method Sub(rhs: Matrix) returns (res: Matrix)
      requires Valid() && rhs.Valid() && rhs.rows == rows && rhs.cols == cols
      ensures fresh(res) && fresh(res.mat) && res.rows == rows && res.cols == cols && res.Valid()
      ensures res.mat[..] == Minus(mat[..], rhs.mat[..])
    {
      res := new Matrix.Zero(rows, cols);
      var x := 0;
      while x < mat.Length
        invariant 0 <= x <= mat.Length
        invariant forall y :: 0 <= y < x ==> res.mat[y] == mat[y] - rhs.mat[y]
      {
        res.mat[x] := mat[x] - rhs.mat[x];
        x := x + 1;
      }
    }

    /// operator-=: also correct when rhs is this matrix.
    method SubAssign(rhs: Matrix)
      requires Valid() && rhs.Valid() && rhs.rows == rows && rhs.cols == cols
      modifies mat
      ensures mat[..] == Minus(old(mat[..]), old(rhs.mat[..]))
    {
      var x := 0;
      while x < mat.Length
        invariant 0 <= x <= mat.Length
        invariant forall y :: 0 <= y < x ==> mat[y] == old(mat[y]) - old(rhs.mat[y])
        invariant forall y :: x <= y < mat.Length ==> mat[y] == old(mat[y]) && rhs.mat[y] == old(rhs.mat[y])
      {
        mat[x] := mat[x] - rhs.mat[x];
        x := x + 1;
      }
    }

    /// operator* with a matrix: the rows×p product.
    method Multiply(rhs: Matrix) returns (res: Matrix, thrown: bool)
      requires Valid() && rhs.Valid() && rhs.rows == cols
      ensures fresh(res) && fresh(res.mat) && res.rows == rows && res.cols == rhs.cols && res.Valid()
      ensures thrown <==> Max3(rows, cols, rhs.cols) >= MinSize && (rows == 0 || cols == 0 || rhs.cols == 0)
      ensures !thrown ==> res.mat[..] == Product(mat[..], rhs.mat[..], rows, cols, rhs.cols)
    {
      res := new Matrix.Zero(rows, rhs.cols);
      thrown := MultiplyArrays(mat[..], rhs.mat[..], res.mat, rows, cols, rhs.cols);
      if !thrown && Max3(rows, cols, rhs.cols) >= MinSize {
        assert res.mat[..] == Product(mat[..], rhs.mat[..], rows, cols, rhs.cols);
      }
    }

    /// operator* with a scalar on the right.
    method Scale(s: int) returns (res: Matrix)
      requires Valid()
      ensures fresh(res) && fresh(res.mat) && res.rows == rows && res.cols == cols && res.Valid()
      ensures res.mat[..] == Scaled(mat[..], s)
    {
      res := new Matrix.Zero(rows, cols);
      var x := 0;
      while x < mat.Length
        invariant 0 <= x <= mat.Length
        invariant forall y :: 0 <= y < x ==> res.mat[y] == mat[y] * s
      {
        res.mat[x] := mat[x] * s;
        x := x + 1;
      }
    }

    /// operator*=: every entry multiplied by s in place.
    method ScaleAssign(s: int)
      requires Valid()
      modifies mat
      ensures mat[..] == Scaled(old(mat[..]), s)
    {
      var x := 0;
      while x < mat.Length
        invariant 0 <= x <= mat.Length
        invariant forall y :: 0 <= y < x ==> mat[y] == old(mat[y]) * s
        invariant forall y :: x <= y < mat.Length ==> mat[y] == old(mat[y])
      {
        mat[x] := mat[x] * s;
        x := x + 1;
      }
    }

    /// operator/ with a scalar: every entry divided, truncating.
    method Divide(s: int) returns (res: Matrix)
      requires Valid() && s != 0
      ensures fresh(res) && fresh(res.mat) && res.rows == rows && res.cols == cols && res.Valid()
      ensures res.mat[..] == Quotient(mat[..], s)
    {
      res := new Matrix.Zero(rows, cols);
      var x := 0;
      while x < mat.Length
        invariant 0 <= x <= mat.Length
        invariant forall y :: 0 <= y < x ==> res.mat[y] == TruncDiv(mat[y], s)
      {
        res.mat[x] := TruncDiv(mat[x], s);
        x := x + 1;
      }
    }

    /// operator/=: every entry divided in place, truncating.
    method DivideAssign(s: int)
      requires Valid() && s != 0
      modifies mat
      ensures mat[..] == Quotient(old(mat[..]), s)
    {
      var x := 0;
      while x < mat.Length
        invariant 0 <= x <= mat.Length
        invariant forall y :: 0 <= y < x ==> mat[y] == TruncDiv(old(mat[y]), s)
        invariant forall y :: x <= y < mat.Length ==> mat[y] == old(mat[y])
      {
        mat[x] := TruncDiv(mat[x], s);
        x := x + 1;
      }
    }
  }

  /// r holds the transpose of the n×m matrix v for every entry (i', j')
  /// before (i, j) in row-major order.
  ghost predicate TransposedUpTo(r: seq<int>, v: seq<int>, n: nat, m: nat, i: nat, j: nat)
  {
    |r| == n * m && |v| == n * m &&
    forall i': nat, j': nat :: i' < n && j' < m && (i' < i || (i' == i && j' < j)) ==>
      Get(r, Cell(j', n, i')) == Get(v, Cell(i', m, j'))
  }

  /// One write of transpose() extends the prefix by one entry.
  lemma TransposedUpToStep(r: seq<int>, v: seq<int>, n: nat, m: nat, i: nat, j: nat)
    requires TransposedUpTo(r, v, n, m, i, j) && i < n && j < m
    ensures Cell(j, n, i) < |r| && Cell(i, m, j) < |v|
    ensures TransposedUpTo(r[Cell(j, n, i) := v[Cell(i, m, j)]], v, n, m, i, j + 1)
  {
    CellInside(j, n, i, m);
    CellInside(i, m, j, n);
    var r' := r[Cell(j, n, i) := v[Cell(i, m, j)]];
    forall i': nat, j': nat | i' < n && j' < m && (i' < i || (i' == i && j' < j + 1))
      ensures Get(r', Cell(j', n, i')) == Get(v, Cell(i', m, j'))
    {
      if i' != i || j' != j {
        CellParts(j', n, i');
        CellParts(j, n, i);
      }
    }
  }

  /// The whole prefix is the transpose.
  lemma TransposedUpToAll(r: seq<int>, v: seq<int>, n: nat, m: nat)
    requires TransposedUpTo(r, v, n, m, n, 0)
    ensures r == Transposed(v, n, m)
  {
    forall x | 0 <= x < |r|
      ensures r[x] == Transposed(v, n, m)[x]
    {
      TransposedUpToAt(r, v, n, m, x);
    }
  }

  lemma TransposedUpToAt(r: seq<int>, v: seq<int>, n: nat, m: nat, x: nat)
    requires TransposedUpTo(r, v, n, m, n, 0) && x < |r|
    ensures r[x] == Transposed(v, n, m)[x]
  {
    CellOf(x, n, m);
    var i, j := x % n, x / n;
    TransposedAt(v, n, m, i, j);
    assert Get(r, Cell(j, n, i)) == Get(v, Cell(i, m, j));
  }

  /// operator* with a scalar on the left.
  method ScaleLeft(s: int, rhs: Matrix) returns (res: Matrix)
    requires rhs.Valid()
    ensures fresh(res) && fresh(res.mat) && res.rows == rhs.rows && res.cols == rhs.cols && res.Valid()
    ensures res.mat[..] == Scaled(rhs.mat[..], s)
  {
    res := new Matrix.Zero(rhs.rows, rhs.cols);
    var x := 0;
    while x < rhs.mat.Length
      invariant 0 <= x <= rhs.mat.Length
      invariant forall y :: 0 <= y < x ==> res.mat[y] == rhs.mat[y] * s
    {
      res.mat[x] := s * rhs.mat[x];
      assert res.mat[x] == rhs.mat[x] * s;
      x := x + 1;
    }
  }
}
