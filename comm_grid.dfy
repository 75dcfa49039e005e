/** Index arithmetic of the communicator-split test (tests/comm_test.cpp):
    the element-wise CommKey operators, the mixed-radix pair
    coordinate_from_index / index_from_coordinate, the send and receive plan
    of split_gauge_field and the divisibility check and rescaling in main.

    All arithmetic is C `int` arithmetic: `/` and `%` truncate toward zero
    (Quot and Rem below), not Dafny's Euclidean operators. */
module CommGrid {

  /** Number of lattice dimensions (nDim). */
  const NDim: nat := 4

  /** One integer per lattice dimension. */
  type CommKey = k: seq<int> | |k| == NDim witness [0, 0, 0, 0]

  datatype Result<T> = Success(value: T) | Failure(dim: nat)

  // ---------------------------------------------------------------------------
  // C integer division

  function Abs(a: int): int { if a < 0 then -a else a }

  /** C's `a / b`: the quotient truncated toward zero. */
  function Quot(a: int, b: int): int
    requires b != 0
  {
    if (a < 0) == (b < 0) then Abs(a) / Abs(b) else -(Abs(a) / Abs(b))
  }

  /** C's `a % b`: the remainder takes the sign of the dividend. */
  function Rem(a: int, b: int): int
    requires b != 0
  {
    if a < 0 then -(Abs(a) % Abs(b)) else Abs(a) % Abs(b)
  }

  /** The C remainder takes the sign of the dividend, is smaller than the
      divisor in magnitude, and completes C's division identity. */
  lemma RemBounds(a: int, b: int)
    requires b != 0
    ensures 0 <= a ==> 0 <= Rem(a, b) < Abs(b)
    ensures a < 0 ==> -Abs(b) < Rem(a, b) <= 0
    ensures a == b * Quot(a, b) + Rem(a, b)
  {
    var q, r := Abs(a) / Abs(b), Abs(a) % Abs(b);
    assert Abs(a) == Abs(b) * q + r;
    if b < 0 {
      assert b * q == -(Abs(b) * q);
      assert b * -q == Abs(b) * q;
    } else {
      assert b * -q == -(Abs(b) * q);
    }
  }

  /** On a non-negative dividend and a positive divisor the C operators agree
      with the mathematical ones. */
  lemma QuotRemNonneg(a: int, b: int)
    requires 0 <= a && 0 < b
    ensures Quot(a, b) == a / b && Rem(a, b) == a % b
  {
  }

  // ---------------------------------------------------------------------------
  // CommKey operators (comm_test.cpp:138-166)

  /** product(input): the number of grid points a key describes. */
  function Product(key: CommKey): (p: int)
    ensures (forall d :: 0 <= d < NDim ==> key[d] > 0) ==> p > 0
  {
    key[0] * key[1] * key[2] * key[3]
  }

  predicate Positive(key: CommKey) { forall d :: 0 <= d < NDim ==> key[d] > 0 }

  predicate NonZero(key: CommKey) { forall d :: 0 <= d < NDim ==> key[d] != 0 }

  function Add(lhs: CommKey, rhs: CommKey): (sum: CommKey)
    ensures forall d :: 0 <= d < NDim ==> sum[d] == lhs[d] + rhs[d]
  {
    [lhs[0] + rhs[0], lhs[1] + rhs[1], lhs[2] + rhs[2], lhs[3] + rhs[3]]
  }

  function Mul(lhs: CommKey, rhs: CommKey): (product: CommKey)
    ensures forall d :: 0 <= d < NDim ==> product[d] == lhs[d] * rhs[d]
  {
    [lhs[0] * rhs[0], lhs[1] * rhs[1], lhs[2] * rhs[2], lhs[3] * rhs[3]]
  }

  function Div(lhs: CommKey, rhs: CommKey): (quotient: CommKey)
    requires NonZero(rhs)
    ensures forall d :: 0 <= d < NDim ==> quotient[d] == Quot(lhs[d], rhs[d])
  {
    [Quot(lhs[0], rhs[0]), Quot(lhs[1], rhs[1]), Quot(lhs[2], rhs[2]), Quot(lhs[3], rhs[3])]
  }

  function Mod(lhs: CommKey, rhs: CommKey): (mod: CommKey)
    requires NonZero(rhs)
    ensures forall d :: 0 <= d < NDim ==> mod[d] == Rem(lhs[d], rhs[d])
  {
    [Rem(lhs[0], rhs[0]), Rem(lhs[1], rhs[1]), Rem(lhs[2], rhs[2]), Rem(lhs[3], rhs[3])]
  }

  /** The four operators fit together dimension by dimension as C's
      division identity: (a / b) * b + a % b == a. */
  lemma DivModIdentity(a: CommKey, b: CommKey)
    requires NonZero(b)
    ensures Add(Mul(Div(a, b), b), Mod(a, b)) == a
  {
    var lhs := Add(Mul(Div(a, b), b), Mod(a, b));
    forall d | 0 <= d < NDim ensures lhs[d] == a[d] {
      RemBounds(a[d], b[d]);
    }
  }

  /** product is multiplicative over the element-wise product. */
  lemma ProductOfMul(a: CommKey, b: CommKey)
    ensures Product(Mul(a, b)) == Product(a) * Product(b)
  {
    var m := Mul(a, b);
    calc {
      Product(m);
      (a[0] * b[0]) * (a[1] * b[1]) * (a[2] * b[2]) * (a[3] * b[3]);
      { MulRearrange(a[0], b[0], a[1], b[1], a[2], b[2], a[3], b[3]); }
      (a[0] * a[1] * a[2] * a[3]) * (b[0] * b[1] * b[2] * b[3]);
    }
  }

  lemma MulRearrange(a0: int, b0: int, a1: int, b1: int, a2: int, b2: int, a3: int, b3: int)
    ensures (a0 * b0) * (a1 * b1) * (a2 * b2) * (a3 * b3)
         == (a0 * a1 * a2 * a3) * (b0 * b1 * b2 * b3)
  {
    var x := a0 * a1;
    var y := b0 * b1;
    assert (a0 * b0) * (a1 * b1) == x * y;
    assert x * y * (a2 * b2) == (x * a2) * (y * b2);
    assert (x * a2) * (y * b2) * (a3 * b3) == (x * a2 * a3) * (y * b2 * b3);
  }

  // ---------------------------------------------------------------------------
  // Mixed-radix coordinates (comm_test.cpp:168-181)

  /** Product of an arbitrary list of extents. */
  function Prod(dims: seq<int>): int
  {
    if dims == [] then 1 else dims[0] * Prod(dims[1..])
  }

  /** The mixed-radix digits of `index` in radices `dims`, first radix
      varying fastest, computed with C's truncating operators. */
  function Digits(index: int, dims: seq<int>): (c: seq<int>)
    requires forall d :: 0 <= d < |dims| ==> dims[d] != 0
    ensures |c| == |dims|
    decreases |dims|
  {
    if dims == [] then [] else [Rem(index, dims[0])] + Digits(Quot(index, dims[0]), dims[1..])
  }

  /** The number whose mixed-radix digits in radices `dims` are `c`. */
  function Horner(c: seq<int>, dims: seq<int>): int
    requires |c| == |dims|
  {
    if dims == [] then 0 else c[0] + dims[0] * Horner(c[1..], dims[1..])
  }

  predicate InBox(c: seq<int>, dims: seq<int>)
    requires |c| == |dims|
  {
    forall d :: 0 <= d < |dims| ==> 0 <= c[d] < dims[d]
  }

  /** coordinate_from_index: peels one digit per dimension off `index`. */
  method CoordinateFromIndex(index: int, dim: CommKey) returns (coord: CommKey)
    requires NonZero(dim)
    ensures coord == Digits(index, dim)
  {
    coord := [0, 0, 0, 0];
    var rest := index;
    for d := 0 to NDim
      invariant coord[..d] + Digits(rest, dim[d..]) == Digits(index, dim)
    {
      assert dim[d..][1..] == dim[d + 1..];
      coord := coord[d := Rem(rest, dim[d])];
      rest := Quot(rest, dim[d]);
    }
    assert dim[NDim..] == [];
  }

  /** index_from_coordinate: the mixed-radix number with dimension 0 as the
      least significant digit (dim[3] never enters). */
  function IndexFromCoordinate(coord: CommKey, dim: CommKey): (index: int)
    ensures index == Horner(coord, dim)
  {
    HornerFour(coord, dim);
    ((coord[3] * dim[2] + coord[2]) * dim[1] + coord[1]) * dim[0] + coord[0]
  }

  lemma HornerFour(c: CommKey, dim: CommKey)
    ensures Horner(c, dim) == ((c[3] * dim[2] + c[2]) * dim[1] + c[1]) * dim[0] + c[0]
  {
    var c1, d1 := c[1..], dim[1..];
    var c2, d2 := c1[1..], d1[1..];
    var c3, d3 := c2[1..], d2[1..];
    assert c3[1..] == [] && d3[1..] == [];
    assert Horner(c3, d3) == c[3];
    assert Horner(c2, d2) == c[2] + dim[2] * c[3];
    assert Horner(c1, d1) == c[1] + dim[1] * (c[2] + dim[2] * c[3]);
  }

  lemma {:induction false} DigitsInBox(index: int, dims: seq<int>)
    requires 0 <= index
    requires forall d :: 0 <= d < |dims| ==> dims[d] > 0
    ensures InBox(Digits(index, dims), dims)
    decreases |dims|
  {
    if dims != [] {
      QuotRemNonneg(index, dims[0]);
      DivBounds(index, dims[0]);
      assert forall d :: 0 <= d < |dims[1..]| ==> dims[1..][d] > 0;
      var rest := Digits(Quot(index, dims[0]), dims[1..]);
      DigitsInBox(Quot(index, dims[0]), dims[1..]);
      var c := Digits(index, dims);
      assert c == [index % dims[0]] + rest;
      forall d | 0 <= d < |dims| ensures 0 <= c[d] < dims[d] {
        if d > 0 { assert c[d] == rest[d - 1] && dims[d] == dims[1..][d - 1]; }
      }
    }
  }

  lemma {:induction false} ProdPositive(dims: seq<int>)
    requires forall d :: 0 <= d < |dims| ==> dims[d] > 0
    ensures Prod(dims) > 0
  {
    if dims != [] { ProdPositive(dims[1..]); }
  }

  lemma {:induction false} HornerInBox(c: seq<int>, dims: seq<int>)
    requires |c| == |dims| && InBox(c, dims)
    ensures 0 <= Horner(c, dims) < Prod(dims)
  {
    if dims != [] {
      var h := Horner(c[1..], dims[1..]);
      HornerInBox(c[1..], dims[1..]);
      assert h <= Prod(dims[1..]) - 1;
      MulLe(dims[0], h, Prod(dims[1..]) - 1);
    }
  }

  lemma DivBounds(a: int, b: int)
    requires 0 <= a && 0 < b
    ensures 0 <= a / b && 0 <= a % b < b
  {
    var q := a / b;
    assert a == b * q + a % b;
    if q < 0 { MulLe(b, q, -1); }
  }

  lemma MulLe(a: int, x: int, y: int)
    requires 0 <= a && x <= y
    ensures a * x <= a * y
  {
  }

  lemma {:induction false} HornerOfDigits(index: int, dims: seq<int>)
    requires forall d :: 0 <= d < |dims| ==> dims[d] > 0
    requires 0 <= index < Prod(dims)
    ensures Horner(Digits(index, dims), dims) == index
    decreases |dims|
  {
    if dims != [] {
      var q := Quot(index, dims[0]);
      QuotRemNonneg(index, dims[0]);
      ProdPositive(dims[1..]);
      QuotBelow(index, dims[0], Prod(dims[1..]));
      HornerOfDigits(q, dims[1..]);
    }
  }

  lemma QuotBelow(x: int, b: int, p: int)
    requires 0 <= x < b * p && 0 < b
    ensures 0 <= x / b < p
  {
    if x / b >= p {
      MulLe(b, p, x / b);
    }
  }

  lemma {:induction false} DigitsOfHorner(c: seq<int>, dims: seq<int>)
    requires |c| == |dims| && InBox(c, dims)
    ensures Digits(Horner(c, dims), dims) == c
  {
    if dims != [] {
      var h := Horner(c[1..], dims[1..]);
      HornerInBox(c[1..], dims[1..]);
      DivModUnique(c[0] + dims[0] * h, dims[0], h, c[0]);
      QuotRemNonneg(c[0] + dims[0] * h, dims[0]);
      DigitsOfHorner(c[1..], dims[1..]);
    }
  }

  /** x == q*b + r with 0 <= r < b pins down x / b and x % b. */
  lemma DivModUnique(x: int, b: int, q: int, r: int)
    requires 0 < b && 0 <= r < b && x == r + b * q
    ensures x / b == q && x % b == r
  {
    var q' := x / b;
    var r' := x % b;
    assert b * (q' - q) == r - r';
    if q' > q { MulLe(b, 1, q' - q); }
    if q' < q { MulLe(b, 1, q - q'); }
  }

  lemma ProductIsProd(key: CommKey)
    ensures Product(key) == Prod(key)
  {
    var k1 := key[1..];
    var k2 := k1[1..];
    var k3 := k2[1..];
    assert k3[1..] == [];
    assert Prod(k3) == key[3];
    assert Prod(k2) == key[2] * key[3];
    assert Prod(k1) == key[1] * (key[2] * key[3]);
    MulAssoc(key[1], key[2], key[3]);
    MulAssoc(key[0], key[1] * key[2], key[3]);
    MulAssoc(key[0], key[1], key[2]);
    MulAssoc(key[0], key[1], key[2] * key[3]);
  }

  lemma MulAssoc(a: int, b: int, c: int)
    ensures a * (b * c) == (a * b) * c
  {
  }

  /** Every coordinate coordinate_from_index returns lies in the box. */
  lemma CoordinateInRange(index: int, dim: CommKey)
    requires Positive(dim) && 0 <= index
    ensures forall d :: 0 <= d < NDim ==> 0 <= Digits(index, dim)[d] < dim[d]
  {
    DigitsInBox(index, dim);
  }

  /** index_from_coordinate undoes coordinate_from_index on [0, product(dim)). */
  lemma IndexOfCoordinate(index: int, dim: CommKey)
    requires Positive(dim) && 0 <= index < Product(dim)
    ensures IndexFromCoordinate(Digits(index, dim), dim) == index
  {
    ProductIsProd(dim);
    HornerOfDigits(index, dim);
  }

  /** coordinate_from_index undoes index_from_coordinate inside the box. */
  lemma CoordinateOfIndex(coord: CommKey, dim: CommKey)
    requires InBox(coord, dim)
    ensures Digits(IndexFromCoordinate(coord, dim), dim) == coord
    ensures 0 <= IndexFromCoordinate(coord, dim) < Product(dim)
  {
    ProductIsProd(dim);
    HornerInBox(coord, dim);
    DigitsOfHorner(coord, dim);
  }

  /** Dimension 0 varies fastest: stepping the index by one steps coordinate 0
      by one and leaves the others alone, unless coordinate 0 wraps. */
  lemma DimensionZeroFastest(index: int, dim: CommKey)
    requires Positive(dim) && 0 <= index
    requires Rem(index + 1, dim[0]) != 0
    ensures Digits(index + 1, dim)[0] == Digits(index, dim)[0] + 1
    ensures Digits(index + 1, dim)[1..] == Digits(index, dim)[1..]
  {
    QuotRemNonneg(index, dim[0]);
    QuotRemNonneg(index + 1, dim[0]);
    var q := index / dim[0];
    var r := index % dim[0];
    assert r + 1 < dim[0] by {
      if r + 1 == dim[0] { DivModUnique(index + 1, dim[0], q + 1, 0); }
    }
    DivModUnique(index + 1, dim[0], q, r + 1);
  }

  // ---------------------------------------------------------------------------
  // split_gauge_field (comm_test.cpp:188-267)

  /** The communicator grid: full_dim / comm_key. */
  function GridDim(fullDim: CommKey, commKey: CommKey): CommKey
    requires NonZero(commKey)
  {
    Div(fullDim, commKey)
  }

  /** Split geometry the source can run: no division by zero. */
  predicate Splittable(fullDim: CommKey, commKey: CommKey)
  {
    Positive(commKey) && NonZero(GridDim(fullDim, commKey))
    && NonZero(Div(fullDim, GridDim(fullDim, commKey)))
  }

  /** The block each communicator covers: full_dim / grid_dim. */
  function BlockDim(fullDim: CommKey, commKey: CommKey): CommKey
    requires Splittable(fullDim, commKey)
  {
    Div(fullDim, GridDim(fullDim, commKey))
  }

  /** Every comm_key extent divides the full extent. */
  predicate Divides(fullDim: CommKey, commKey: CommKey)
    requires NonZero(commKey)
  {
    forall d :: 0 <= d < NDim ==> Rem(fullDim[d], commKey[d]) == 0
  }

  /** The coordinate replicate i of the rank at full_idx sends to. */
  function SendTarget(fullDim: CommKey, fullIdx: CommKey, commKey: CommKey, i: int): CommKey
    requires Splittable(fullDim, commKey)
  {
    Add(Mul(Digits(i, commKey), GridDim(fullDim, commKey)), Div(fullIdx, BlockDim(fullDim, commKey)))
  }

  /** The coordinate replicate i of the rank at full_idx receives from. */
  function RecvSource(fullDim: CommKey, fullIdx: CommKey, commKey: CommKey, i: int): CommKey
    requires Splittable(fullDim, commKey)
  {
    Add(Mul(Mod(fullIdx, GridDim(fullDim, commKey)), BlockDim(fullDim, commKey)), Digits(i, commKey))
  }

  /** tag = src_rank * total_rank + dst_rank. */
  function Tag(srcRank: int, dstRank: int, totalRank: int): int
  {
    srcRank * totalRank + dstRank
  }

  datatype Send = Send(dstIdx: CommKey, dstRank: int, tag: int)
  datatype Recv = Recv(srcIdx: CommKey, srcRank: int, tag: int, offset: CommKey)

  function SendFor(fullDim: CommKey, fullIdx: CommKey, commKey: CommKey, rankOf: CommKey -> int, i: int): Send
    requires Splittable(fullDim, commKey)
  {
    var dst := SendTarget(fullDim, fullIdx, commKey, i);
    Send(dst, rankOf(dst), Tag(rankOf(fullIdx), rankOf(dst), Product(fullDim)))
  }

  function RecvFor(fullDim: CommKey, fullIdx: CommKey, commKey: CommKey, threadDim: CommKey,
                   rankOf: CommKey -> int, i: int): Recv
    requires Splittable(fullDim, commKey)
  {
    var src := RecvSource(fullDim, fullIdx, commKey, i);
    Recv(src, rankOf(src), Tag(rankOf(src), rankOf(fullIdx), Product(fullDim)), Mul(Digits(i, commKey), threadDim))
  }

  /** The message plan of split_gauge_field for the rank at full_idx: one
      send and one receive per replicate, in replicate order. `rankOf` stands
      for comm_rank_from_coords and threadDim for the base field's extents. */
  method SplitGaugeField(fullDim: CommKey, fullIdx: CommKey, commKey: CommKey, threadDim: CommKey,
                         rankOf: CommKey -> int) returns (sends: seq<Send>, recvs: seq<Recv>)
    requires Splittable(fullDim, commKey)
    ensures |sends| == |recvs| == Product(commKey)
    ensures forall i :: 0 <= i < |sends| ==> sends[i] == SendFor(fullDim, fullIdx, commKey, rankOf, i)
    ensures forall i :: 0 <= i < |recvs| ==> recvs[i] == RecvFor(fullDim, fullIdx, commKey, threadDim, rankOf, i)
  {
    var rank := rankOf(fullIdx);
    var totalRank := Product(fullDim);
    var gridDim := Div(fullDim, commKey);
    var blockDim := Div(fullDim, gridDim);
    var nReplicates := Product(commKey);

    sends := [];
    var i := 0;
    while i < nReplicates
      invariant 0 <= i <= nReplicates
      invariant |sends| == i
      invariant forall j :: 0 <= j < i ==> sends[j] == SendFor(fullDim, fullIdx, commKey, rankOf, j)
    {
      var gridIdx := CoordinateFromIndex(i, commKey);
      var blockIdx := Div(fullIdx, blockDim);
      var dstIdx := Add(Mul(gridIdx, gridDim), blockIdx);
      var dstRank := rankOf(dstIdx);
      var tag := rank * totalRank + dstRank;
      sends := sends + [Send(dstIdx, dstRank, tag)];
      i := i + 1;
    }

    recvs := [];
    i := 0;
    while i < nReplicates
      invariant 0 <= i <= nReplicates
      invariant |recvs| == i
      invariant forall j :: 0 <= j < i ==> recvs[j] == RecvFor(fullDim, fullIdx, commKey, threadDim, rankOf, j)
    {
      var threadIdx := CoordinateFromIndex(i, commKey);
      var srcIdx := Add(Mul(Mod(fullIdx, gridDim), blockDim), threadIdx);
      var srcRank := rankOf(srcIdx);
      var tag := srcRank * totalRank + rank;
      recvs := recvs + [Recv(srcIdx, srcRank, tag, Mul(threadIdx, threadDim))];
      i := i + 1;
    }
  }

  // ---------------------------------------------------------------------------
  // Properties of the plan, first one dimension at a time

  /** With K dividing F, F / (F / K) == K. */
  lemma BlockExtent(f: int, k: int)
    requires 0 < k && 0 < f && f % k == 0
    ensures 0 < f / k && f / (f / k) == k && f == k * (f / k)
  {
    var g := f / k;
    assert f == k * g;
    if g <= 0 { MulLe(k, g, 0); }
    DivModUnique(f, g, k, 0);
  }

  /** One dimension of the send/receive pairing, with G = F/K and block K. */
  lemma PairingInOneDim(f: int, k: int, x: int, g: int, t: int)
    requires 0 < k && 0 < f && f % k == 0
    requires 0 <= x < f && 0 <= g < k && 0 <= t < k
    ensures var G := f / k;
            var dst := g * G + x / k;
            0 <= dst < f && dst % G == x / k && dst / G == g
            && ((dst % G) * k + t == x <==> t == x % k)
  {
    var G := f / k;
    BlockExtent(f, k);
    QuotBelow(x, k, G);
    var dst := g * G + x / k;
    MulLe(G, g, k - 1);
    assert g * G <= (k - 1) * G;
    assert dst < f;
    DivModUnique(dst, G, g, x / k);
    DivModUnique(x, k, x / k, x % k);
    if (x / k) * k + t == x {
      DivModUnique(x, k, x / k, t);
    }
  }

  /** One dimension of the reverse pairing: the receive source of a receiver
      sends back to it. */
  lemma ReversePairingInOneDim(f: int, k: int, y: int, t: int)
    requires 0 < k && 0 < f && f % k == 0
    requires 0 <= y < f && 0 <= t < k
    ensures var G := f / k;
            var src := (y % G) * k + t;
            0 <= src < f && 0 <= y / G < k && (y / G) * G + src / k == y
  {
    var G := f / k;
    BlockExtent(f, k);
    var src := (y % G) * k + t;
    MulLe(k, y % G, G - 1);
    assert src < f;
    DivModUnique(src, k, y % G, t);
    QuotBelow(y, G, k);
  }

  /** Positive extents that the comm_key divides. */
  predicate GoodSplit(fullDim: CommKey, commKey: CommKey)
  {
    Positive(fullDim) && Positive(commKey) && Divides(fullDim, commKey)
  }

  lemma GoodSplitFacts(fullDim: CommKey, commKey: CommKey)
    requires GoodSplit(fullDim, commKey)
    ensures Splittable(fullDim, commKey)
    ensures BlockDim(fullDim, commKey) == commKey
    ensures forall d :: 0 <= d < NDim ==> GridDim(fullDim, commKey)[d] == fullDim[d] / commKey[d] > 0
  {
    var G := GridDim(fullDim, commKey);
    forall d | 0 <= d < NDim
      ensures G[d] == fullDim[d] / commKey[d] > 0 && Quot(fullDim[d], G[d]) == commKey[d]
    {
      OneDimSplit(fullDim[d], commKey[d]);
    }
    assert NonZero(G);
    var B := Div(fullDim, G);
    assert B == commKey;
  }

  /** One dimension of GoodSplitFacts, in C's operators. */
  lemma OneDimSplit(f: int, k: int)
    requires 0 < k && 0 < f && Rem(f, k) == 0
    ensures Quot(f, k) == f / k > 0 && Quot(f, Quot(f, k)) == k
  {
    QuotRemNonneg(f, k);
    BlockExtent(f, k);
    QuotRemNonneg(f, f / k);
  }

  /** When every comm_key extent divides the full extent, block_dim ==
      comm_key. */
  lemma BlockDimIsCommKey(fullDim: CommKey, commKey: CommKey)
    requires GoodSplit(fullDim, commKey)
    ensures Splittable(fullDim, commKey) && BlockDim(fullDim, commKey) == commKey
  {
    GoodSplitFacts(fullDim, commKey);
  }

  /** Every send destination lies inside the full grid. */
  lemma SendTargetInRange(fullDim: CommKey, fullIdx: CommKey, commKey: CommKey, i: int)
    requires GoodSplit(fullDim, commKey) && InBox(fullIdx, fullDim)
    requires 0 <= i < Product(commKey)
    ensures Splittable(fullDim, commKey)
    ensures InBox(SendTarget(fullDim, fullIdx, commKey, i), fullDim)
  {
    GoodSplitFacts(fullDim, commKey);
    var g := Digits(i, commKey);
    DigitsInBox(i, commKey);
    var dst := SendTarget(fullDim, fullIdx, commKey, i);
    forall d | 0 <= d < NDim ensures 0 <= dst[d] < fullDim[d] {
      QuotRemNonneg(fullIdx[d], commKey[d]);
      PairingInOneDim(fullDim[d], commKey[d], fullIdx[d], g[d], 0);
    }
  }

  /** Every receive source lies inside the full grid. */
  lemma RecvSourceInRange(fullDim: CommKey, fullIdx: CommKey, commKey: CommKey, i: int)
    requires GoodSplit(fullDim, commKey) && InBox(fullIdx, fullDim)
    requires 0 <= i < Product(commKey)
    ensures Splittable(fullDim, commKey)
    ensures InBox(RecvSource(fullDim, fullIdx, commKey, i), fullDim)
  {
    GoodSplitFacts(fullDim, commKey);
    var t := Digits(i, commKey);
    DigitsInBox(i, commKey);
    var G := GridDim(fullDim, commKey);
    var src := RecvSource(fullDim, fullIdx, commKey, i);
    forall d | 0 <= d < NDim ensures 0 <= src[d] < fullDim[d] {
      QuotRemNonneg(fullIdx[d], G[d]);
      ReversePairingInOneDim(fullDim[d], commKey[d], fullIdx[d], t[d]);
    }
  }

  /** Send/receive pairing: the receiver that replicate i of the sender at
      `sender` targets has exactly one replicate, j, that receives from
      `sender`, and both sides compute the same tag. */
  lemma SendHasMatchingRecv(fullDim: CommKey, sender: CommKey, commKey: CommKey, threadDim: CommKey,
                            rankOf: CommKey -> int, i: int)
    requires GoodSplit(fullDim, commKey) && InBox(sender, fullDim)
    requires 0 <= i < Product(commKey)
    ensures Splittable(fullDim, commKey)
    ensures var dst := SendTarget(fullDim, sender, commKey, i);
            var j := IndexFromCoordinate(Mod(sender, commKey), commKey);
            && 0 <= j < Product(commKey)
            && RecvSource(fullDim, dst, commKey, j) == sender
            && RecvFor(fullDim, dst, commKey, threadDim, rankOf, j).tag
               == SendFor(fullDim, sender, commKey, rankOf, i).tag
            && (forall j' :: 0 <= j' < Product(commKey) && RecvSource(fullDim, dst, commKey, j') == sender
                  ==> j' == j)
  {
    GoodSplitFacts(fullDim, commKey);
    var G := GridDim(fullDim, commKey);
    var g := Digits(i, commKey);
    DigitsInBox(i, commKey);
    var dst := SendTarget(fullDim, sender, commKey, i);
    var m := Mod(sender, commKey);
    forall d | 0 <= d < NDim ensures 0 <= m[d] < commKey[d] {
      QuotRemNonneg(sender[d], commKey[d]);
    }
    var j := IndexFromCoordinate(m, commKey);
    CoordinateOfIndex(m, commKey);
    assert Digits(j, commKey) == m;

    // dst % G == sender / K in every dimension, hence the source of j is sender
    forall d | 0 <= d < NDim
      ensures Rem(dst[d], G[d]) * commKey[d] + m[d] == sender[d]
    {
      QuotRemNonneg(sender[d], commKey[d]);
      PairingInOneDim(fullDim[d], commKey[d], sender[d], g[d], m[d]);
      QuotRemNonneg(dst[d], G[d]);
    }
    var src := RecvSource(fullDim, dst, commKey, j);
    assert src == sender by {
      forall d | 0 <= d < NDim ensures src[d] == sender[d] { }
    }

    forall j' | 0 <= j' < Product(commKey) && RecvSource(fullDim, dst, commKey, j') == sender
      ensures j' == j
    {
      var t := Digits(j', commKey);
      DigitsInBox(j', commKey);
      forall d | 0 <= d < NDim ensures t[d] == m[d] {
        QuotRemNonneg(sender[d], commKey[d]);
        PairingInOneDim(fullDim[d], commKey[d], sender[d], g[d], t[d]);
        QuotRemNonneg(dst[d], G[d]);
      }
      assert t == m;
      IndexOfCoordinate(j', commKey);
    }
  }

  /** Reverse pairing: the source a receiver's replicate j listens to has a
      replicate i that sends to that receiver. */
  lemma RecvHasMatchingSend(fullDim: CommKey, receiver: CommKey, commKey: CommKey, j: int)
    requires GoodSplit(fullDim, commKey) && InBox(receiver, fullDim)
    requires 0 <= j < Product(commKey)
    ensures Splittable(fullDim, commKey)
    ensures var src := RecvSource(fullDim, receiver, commKey, j);
            var i := IndexFromCoordinate(Div(receiver, GridDim(fullDim, commKey)), commKey);
            0 <= i < Product(commKey) && SendTarget(fullDim, src, commKey, i) == receiver
  {
    GoodSplitFacts(fullDim, commKey);
    var G := GridDim(fullDim, commKey);
    var t := Digits(j, commKey);
    DigitsInBox(j, commKey);
    var src := RecvSource(fullDim, receiver, commKey, j);
    var q := Div(receiver, G);
    forall d | 0 <= d < NDim ensures 0 <= q[d] < commKey[d] {
      QuotRemNonneg(receiver[d], G[d]);
      ReversePairingInOneDim(fullDim[d], commKey[d], receiver[d], t[d]);
    }
    var i := IndexFromCoordinate(q, commKey);
    CoordinateOfIndex(q, commKey);
    var dst := SendTarget(fullDim, src, commKey, i);
    forall d | 0 <= d < NDim ensures dst[d] == receiver[d] {
      QuotRemNonneg(receiver[d], G[d]);
      ReversePairingInOneDim(fullDim[d], commKey[d], receiver[d], t[d]);
      QuotRemNonneg(src[d], commKey[d]);
    }
  }

  /** The tag src * total + dst is injective on ranks in [0, total). */
  lemma TagInjective(s: int, d: int, s': int, d': int, total: int)
    requires 0 <= s < total && 0 <= d < total && 0 <= s' < total && 0 <= d' < total
    requires Tag(s, d, total) == Tag(s', d', total)
    ensures s == s' && d == d'
  {
    DivModUnique(Tag(s, d, total), total, s, d);
    DivModUnique(Tag(s', d', total), total, s', d');
  }

  /** The tag of ranks in [0, total) stays below total * total, so it fits a
      32-bit int whenever total * total does. */
  lemma TagBound(s: int, d: int, total: int)
    requires 0 <= s < total && 0 <= d < total
    ensures 0 <= Tag(s, d, total) < total * total
  {
    MulLe(total, s, total - 1);
  }

  // ---------------------------------------------------------------------------
  // main (comm_test.cpp:338-350)

  /** The check and rescaling in main: abort unless every comm_dim is
      divisible by split_key; otherwise scale each gauge extent and the pad by
      the split. Failure carries the first offending dimension. */
  method ScaleForSplit(commDim: CommKey, splitKey: CommKey, x: CommKey, pad: int)
    returns (r: Result<(CommKey, int)>)
    requires NonZero(splitKey)
    ensures r.Failure? <==> !Divides(commDim, splitKey)
    ensures r.Failure? ==> r.dim < NDim && Rem(commDim[r.dim], splitKey[r.dim]) != 0
                           && forall e :: 0 <= e < r.dim ==> Rem(commDim[e], splitKey[e]) == 0
    ensures r.Success? ==> r.value == (Mul(x, splitKey), pad * Product(splitKey))
  {
    var xs := x;
    var p := pad;
    for d := 0 to NDim
      invariant forall e :: 0 <= e < d ==> Rem(commDim[e], splitKey[e]) == 0
      invariant forall e :: 0 <= e < d ==> xs[e] == x[e] * splitKey[e]
      invariant forall e :: d <= e < NDim ==> xs[e] == x[e]
      invariant p == pad * Prod(splitKey[..d])
    {
      if Rem(commDim[d], splitKey[d]) != 0 {
        return Failure(d);
      }
      xs := xs[d := xs[d] * splitKey[d]];
      PrefixProd(splitKey, d);
      MulAssoc(pad, Prod(splitKey[..d]), splitKey[d]);
      p := p * splitKey[d];
    }
    assert splitKey[..NDim] == splitKey;
    ProductIsProd(splitKey);
    assert xs == Mul(x, splitKey);
    return Success((xs, p));
  }

  lemma {:induction false} PrefixProd(s: seq<int>, d: nat)
    requires d < |s|
    ensures Prod(s[..d + 1]) == Prod(s[..d]) * s[d]
  {
    if d == 0 {
      assert s[..1][1..] == [];
    } else {
      assert s[..d + 1][1..] == s[1..][..d];
      assert s[..d][1..] == s[1..][..d - 1];
      PrefixProd(s[1..], d - 1);
    }
  }
}
