/** Values of the renderer's geometry: the homogeneous vector `Vec3`, the
    triangle, the mesh and the 4x4 matrix, with their value operations.

    The source computes in `f32`. A scalar is modelled here as the term that
    produced it (a literal, or a sum, difference, product or quotient of two
    earlier scalars), so that every fact below says which operands an
    operation combines, in which order, and never depends on how `f32`
    rounds. Two equal terms denote equal floats under any rounding. */
module Geometry {

  /** An `f32` value, as the expression that computed it. */
  datatype F32 =
    | Lit(value: real)
    | Sum(left: F32, right: F32)
    | Difference(left: F32, right: F32)
    | Product(left: F32, right: F32)
    | Quotient(left: F32, right: F32)

  /** True when no division took part in computing `t`. */
  predicate DivisionFree(t: F32) {
    match t
    case Lit(_) => true
    case Sum(a, b) => DivisionFree(a) && DivisionFree(b)
    case Difference(a, b) => DivisionFree(a) && DivisionFree(b)
    case Product(a, b) => DivisionFree(a) && DivisionFree(b)
    case Quotient(_, _) => false
  }

  const ONE: F32 := Lit(1.0)

  /** A point or direction in homogeneous coordinates. */
  datatype Vec3 = Vec3(x: F32, y: F32, z: F32, w: F32) {

    /** A point: the homogeneous coordinate is 1.0. */
    static function New(x: F32, y: F32, z: F32): (v: Vec3)
      ensures v.x == x && v.y == y && v.z == z
      ensures v.w == ONE
    {
      Vec3(x, y, z, ONE)
    }

    /** A vector whose homogeneous coordinate is given explicitly. */
    static function NewWithW(x: F32, y: F32, z: F32, w: F32): (v: Vec3)
      ensures v.x == x && v.y == y && v.z == z && v.w == w
    {
      Vec3(x, y, z, w)
    }

    /** Component `c` in the order x, y, z, w. */
    function Component(c: nat): F32
      requires c < 4
    {
      if c == 0 then x else if c == 1 then y else if c == 2 then z else w
    }

    /** Componentwise sum of x, y, z; `w` is reset to 1.0. */
    function Add(other: Vec3): Vec3
    {
      New(Sum(x, other.x), Sum(y, other.y), Sum(z, other.z))
    }

    /** Componentwise difference of x, y, z; `w` is reset to 1.0. */
    function Sub(other: Vec3): Vec3
    {
      New(Difference(x, other.x), Difference(y, other.y), Difference(z, other.z))
    }

    /** x, y, z scaled by `k`; `w` is reset to 1.0. */
    function Mul(k: F32): Vec3
    {
      New(Product(x, k), Product(y, k), Product(z, k))
    }

    /** x, y, z divided by `k` (a zero `k` is allowed, as in `f32`); `w` is reset to 1.0. */
    function Div(k: F32): Vec3
    {
      New(Quotient(x, k), Quotient(y, k), Quotient(z, k))
    }

    /** The three-dimensional dot product, summed left to right. */
    function DotProduct(other: Vec3): F32 {
      Sum(Sum(Product(x, other.x), Product(y, other.y)), Product(z, other.z))
    }
  }

  /** The origin as a point. */
  const ZERO: Vec3 := Vec3.New(Lit(0.0), Lit(0.0), Lit(0.0))

  /** `Add`, `Sub`, `Mul` and `Div` never read the homogeneous coordinate of
      their inputs, and always return a point (w = 1.0). */
  lemma ArithmeticResetsW(a: Vec3, b: Vec3, k: F32, wa: F32, wb: F32)
    ensures a.(w := wa).Add(b.(w := wb)) == a.Add(b) && a.Add(b).w == ONE
    ensures a.(w := wa).Sub(b.(w := wb)) == a.Sub(b) && a.Sub(b).w == ONE
    ensures a.(w := wa).Mul(k) == a.Mul(k) && a.Mul(k).w == ONE
    ensures a.(w := wa).Div(k) == a.Div(k) && a.Div(k).w == ONE
  {
  }

  /** Each of the first three output components of `Add`, `Sub`, `Mul` and
      `Div` combines the same component of the inputs and nothing else. */
  lemma ArithmeticIsComponentwise(a: Vec3, b: Vec3, k: F32, c: nat)
    requires c < 3
    ensures a.Add(b).Component(c) == Sum(a.Component(c), b.Component(c))
    ensures a.Sub(b).Component(c) == Difference(a.Component(c), b.Component(c))
    ensures a.Mul(k).Component(c) == Product(a.Component(c), k)
    ensures a.Div(k).Component(c) == Quotient(a.Component(c), k)
  {
  }

  /** The dot product reads only x, y and z of both vectors. */
  lemma DotProductReadsOnlyXyz(a: Vec3, b: Vec3, wa: F32, wb: F32)
    ensures a.(w := wa).DotProduct(b.(w := wb)) == a.DotProduct(b)
  {
  }

  /** Four rows of four entries: `m[row][column]`. */
  type Rows = m: seq<seq<F32>> | |m| == 4 && forall i | 0 <= i < 4 :: |m[i]| == 4
    witness [[Lit(0.0), Lit(0.0), Lit(0.0), Lit(0.0)], [Lit(0.0), Lit(0.0), Lit(0.0), Lit(0.0)],
             [Lit(0.0), Lit(0.0), Lit(0.0), Lit(0.0)], [Lit(0.0), Lit(0.0), Lit(0.0), Lit(0.0)]]

  /** Output component `c` of a row-vector times matrix product: the input
      components weighted by column `c`, summed left to right, row 3 weighted
      by the input's `w`. */
  function ColumnTerm(i: Vec3, m: Rows, c: nat): F32
    requires c < 4
  {
    Sum(Sum(Sum(Product(i.Component(0), m[0][c]), Product(i.Component(1), m[1][c])),
            Product(i.Component(2), m[2][c])),
        Product(i.Component(3), m[3][c]))
  }

  datatype Mat4x4 = Mat4x4(m: Rows) {

    /** The derived default: every entry 0.0. */
    static function Default(): (z: Mat4x4)
      ensures forall r, c | 0 <= r < 4 && 0 <= c < 4 :: z.m[r][c] == Lit(0.0)
    {
      Mat4x4([[Lit(0.0), Lit(0.0), Lit(0.0), Lit(0.0)], [Lit(0.0), Lit(0.0), Lit(0.0), Lit(0.0)],
              [Lit(0.0), Lit(0.0), Lit(0.0), Lit(0.0)], [Lit(0.0), Lit(0.0), Lit(0.0), Lit(0.0)]])
    }

    /** The vector `i` (as a row, `w` included) times this matrix. The fourth
        result is kept as `w`: there is no homogeneous divide. */
    function MultiplyVector(i: Vec3): (o: Vec3)
      ensures forall c | 0 <= c < 4 :: o.Component(c) == ColumnTerm(i, m, c)
    {
      Vec3.NewWithW(
        Sum(Sum(Sum(Product(i.x, m[0][0]), Product(i.y, m[1][0])), Product(i.z, m[2][0])), Product(i.w, m[3][0])),
        Sum(Sum(Sum(Product(i.x, m[0][1]), Product(i.y, m[1][1])), Product(i.z, m[2][1])), Product(i.w, m[3][1])),
        Sum(Sum(Sum(Product(i.x, m[0][2]), Product(i.y, m[1][2])), Product(i.z, m[2][2])), Product(i.w, m[3][2])),
        Sum(Sum(Sum(Product(i.x, m[0][3]), Product(i.y, m[1][3])), Product(i.z, m[2][3])), Product(i.w, m[3][3])))
    }
  }

  /** Output component `c` depends on column `c` of the matrix and on nothing
      else of it: two matrices that agree on that column agree there. */
  lemma MultiplyVectorReadsOneColumn(a: Mat4x4, b: Mat4x4, i: Vec3, c: nat)
    requires c < 4
    requires forall r | 0 <= r < 4 :: a.m[r][c] == b.m[r][c]
    ensures a.MultiplyVector(i).Component(c) == b.MultiplyVector(i).Component(c)
  {
    assert a.MultiplyVector(i).Component(c) == ColumnTerm(i, a.m, c);
    assert b.MultiplyVector(i).Component(c) == ColumnTerm(i, b.m, c);
  }

  /** No division takes part in a matrix-vector product: when the inputs
      were computed without division, so are all four outputs, `w` included. */
  lemma MultiplyVectorDividesNothing(a: Mat4x4, i: Vec3)
    requires forall r, c | 0 <= r < 4 && 0 <= c < 4 :: DivisionFree(a.m[r][c])
    requires DivisionFree(i.x) && DivisionFree(i.y) && DivisionFree(i.z) && DivisionFree(i.w)
    ensures forall c | 0 <= c < 4 :: DivisionFree(a.MultiplyVector(i).Component(c))
  {
    forall c | 0 <= c < 4
      ensures DivisionFree(a.MultiplyVector(i).Component(c))
    {
      assert DivisionFree(a.m[0][c]) && DivisionFree(a.m[1][c]);
      assert DivisionFree(a.m[2][c]) && DivisionFree(a.m[3][c]);
      assert DivisionFree(Product(i.Component(0), a.m[0][c]));
      assert DivisionFree(Product(i.Component(1), a.m[1][c]));
      assert DivisionFree(Product(i.Component(2), a.m[2][c]));
      assert DivisionFree(Product(i.Component(3), a.m[3][c]));
    }
  }

  /** The colour a triangle carries. Only the colour the source assigns to
      new triangles, white, is modelled. */
  datatype Color = White

  /** The three corners of a triangle, in winding order. */
  type Corners = p: seq<Vec3> | |p| == 3 witness [ZERO, ZERO, ZERO]

  datatype Triangle = Triangle(p: Corners, col: Color) {

    /** The default triangle: three origins, white. */
    static function Default(): (t: Triangle)
      ensures t.p == [ZERO, ZERO, ZERO] && t.col == White
    {
      Triangle([ZERO, ZERO, ZERO], White)
    }

    /** A triangle with the given corners and every other field defaulted. */
    static function New(p: Corners): (t: Triangle)
      ensures t.p == p && t.col == Default().col
    {
      Default().(p := p)
    }
  }

  datatype Mesh = Mesh(tris: seq<Triangle>)
}
