/**
 * `mat4x4_t<int>` (the `int4x4` typedef): a 4x4 matrix stored as four rows.
 *
 * The value operators (`==`, `!=`, `+`, `-`, `*`, `getColumn`, `det`) are functions
 * on the `Mat4` value; the compound assignments and `transpose()`, which overwrite
 * the rows in place, are methods of the class `Int4x4` holding the four rows in an
 * array.  Integers are unbounded here: the 32-bit overflow of `int` is not modelled.
 *
 * `vec4_t` (math/vec4.hpp) is not part of this model.  Its operations are taken to
 * be component-wise, its `==` to compare all four components, `!=` to be the
 * negation of `==`, and `dot` to be the sum of the four products.
 */
module Mat4 {

  datatype Vec4 = Vec4(x: int, y: int, z: int, w: int)
  {
    /** `v[c]`, component `c` in the order x, y, z, w. */
    function Get(c: nat): int
      requires c < 4
    {
      if c == 0 then x else if c == 1 then y else if c == 2 then z else w
    }

    /** The same vector with component `c` replaced by `v`. */
    function With(c: nat, v: int): (r: Vec4)
      requires c < 4
      ensures r.Get(c) == v
      ensures forall k :: 0 <= k < 4 && k != c ==> r.Get(k) == Get(k)
    {
      if c == 0 then this.(x := v)
      else if c == 1 then this.(y := v)
      else if c == 2 then this.(z := v)
      else this.(w := v)
    }
  }

  function VAdd(a: Vec4, b: Vec4): Vec4
  {
    Vec4(a.x + b.x, a.y + b.y, a.z + b.z, a.w + b.w)
  }

  function VSub(a: Vec4, b: Vec4): Vec4
  {
    Vec4(a.x - b.x, a.y - b.y, a.z - b.z, a.w - b.w)
  }

  function VNeg(a: Vec4): Vec4
  {
    Vec4(-a.x, -a.y, -a.z, -a.w)
  }

  function VScale(a: Vec4, s: int): Vec4
  {
    Vec4(a.x * s, a.y * s, a.z * s, a.w * s)
  }

  function Dot(a: Vec4, b: Vec4): int
  {
    a.x * b.x + a.y * b.y + a.z * b.z + a.w * b.w
  }

  /** The four rows `data_[0..3]`. */
  datatype Mat4 = Mat4(r0: Vec4, r1: Vec4, r2: Vec4, r3: Vec4)
  {
    function Row(i: nat): Vec4
      requires i < 4
    {
      if i == 0 then r0 else if i == 1 then r1 else if i == 2 then r2 else r3
    }

    /** The entry in row `i`, column `j`. */
    function At(i: nat, j: nat): int
      requires i < 4 && j < 4
    {
      Row(i).Get(j)
    }

    /** The same matrix with the entry in row `i`, column `j` replaced by `v`. */
    function Set(i: nat, j: nat, v: int): (r: Mat4)
      requires i < 4 && j < 4
      ensures r.At(i, j) == v
      ensures forall p, q :: 0 <= p < 4 && 0 <= q < 4 && (p, q) != (i, j) ==> r.At(p, q) == At(p, q)
    {
      var row := Row(i).With(j, v);
      if i == 0 then this.(r0 := row)
      else if i == 1 then this.(r1 := row)
      else if i == 2 then this.(r2 := row)
      else this.(r3 := row)
    }
  }

  /** Two matrices are equal exactly when all sixteen entries are. */
  lemma EntriesDetermine(a: Mat4, b: Mat4)
    requires forall i, j :: 0 <= i < 4 && 0 <= j < 4 ==> a.At(i, j) == b.At(i, j)
    ensures a == b
  {
    forall i | 0 <= i < 4
      ensures a.Row(i) == b.Row(i)
    {
      assert a.At(i, 0) == b.At(i, 0) && a.At(i, 1) == b.At(i, 1);
      assert a.At(i, 2) == b.At(i, 2) && a.At(i, 3) == b.At(i, 3);
    }
    assert a.Row(0) == b.Row(0) && a.Row(1) == b.Row(1) && a.Row(2) == b.Row(2) && a.Row(3) == b.Row(3);
  }

  /** The default constructor's matrix: ones on the diagonal, zeros elsewhere. */
  function Identity(): (m: Mat4)
    ensures forall i, j :: 0 <= i < 4 && 0 <= j < 4 ==> m.At(i, j) == (if i == j then 1 else 0)
  {
    Mat4(Vec4(1, 0, 0, 0), Vec4(0, 1, 0, 0), Vec4(0, 0, 1, 0), Vec4(0, 0, 0, 1))
  }

  /** `operator==`: row by row, so exactly equality of the matrices. */
  function Eq(a: Mat4, b: Mat4): (r: bool)
    ensures r <==> a == b
  {
    a.r0 == b.r0 && a.r1 == b.r1 && a.r2 == b.r2 && a.r3 == b.r3
  }

  /** `operator!=`: some row differs. */
  function Neq(a: Mat4, b: Mat4): (r: bool)
    ensures r <==> !Eq(a, b)
    ensures r <==> a != b
  {
    a.r0 != b.r0 || a.r1 != b.r1 || a.r2 != b.r2 || a.r3 != b.r3
  }

  /** `operator+`: row-wise vector sums. */
  function Add(a: Mat4, b: Mat4): (r: Mat4)
    ensures forall i, j :: 0 <= i < 4 && 0 <= j < 4 ==> r.At(i, j) == a.At(i, j) + b.At(i, j)
  {
    Mat4(VAdd(a.r0, b.r0), VAdd(a.r1, b.r1), VAdd(a.r2, b.r2), VAdd(a.r3, b.r3))
  }

  /** `operator-` (binary): row-wise vector differences. */
  function Sub(a: Mat4, b: Mat4): (r: Mat4)
    ensures forall i, j :: 0 <= i < 4 && 0 <= j < 4 ==> r.At(i, j) == a.At(i, j) - b.At(i, j)
  {
    Mat4(VSub(a.r0, b.r0), VSub(a.r1, b.r1), VSub(a.r2, b.r2), VSub(a.r3, b.r3))
  }

  /** `operator-` (unary). */
  function Neg(a: Mat4): (r: Mat4)
    ensures forall i, j :: 0 <= i < 4 && 0 <= j < 4 ==> r.At(i, j) == -a.At(i, j)
  {
    Mat4(VNeg(a.r0), VNeg(a.r1), VNeg(a.r2), VNeg(a.r3))
  }

  /** `getColumn(c)`: entry `c` of every row. */
  function GetColumn(m: Mat4, c: nat): (v: Vec4)
    requires c < 4
    ensures forall i :: 0 <= i < 4 ==> v.Get(i) == m.At(i, c)
  {
    Vec4(m.r0.Get(c), m.r1.Get(c), m.r2.Get(c), m.r3.Get(c))
  }

  /** One row of a product: the row dotted with each of the four columns given. */
  function RowTimes(row: Vec4, c0: Vec4, c1: Vec4, c2: Vec4, c3: Vec4): Vec4
  {
    Vec4(Dot(row, c0), Dot(row, c1), Dot(row, c2), Dot(row, c3))
  }

  /** `operator*` (matrix): the columns of `b` are taken first, then each row of `a` is dotted with them. */
  function Mul(a: Mat4, b: Mat4): (r: Mat4)
    ensures forall i, j :: 0 <= i < 4 && 0 <= j < 4 ==>
      r.At(i, j) == a.At(i, 0) * b.At(0, j) + a.At(i, 1) * b.At(1, j) + a.At(i, 2) * b.At(2, j) + a.At(i, 3) * b.At(3, j)
  {
    var c0, c1, c2, c3 := GetColumn(b, 0), GetColumn(b, 1), GetColumn(b, 2), GetColumn(b, 3);
    Mat4(RowTimes(a.r0, c0, c1, c2, c3), RowTimes(a.r1, c0, c1, c2, c3),
         RowTimes(a.r2, c0, c1, c2, c3), RowTimes(a.r3, c0, c1, c2, c3))
  }

  /** `operator*` (vector): each row dotted with `v`. */
  function MulVec(m: Mat4, v: Vec4): (r: Vec4)
    ensures forall i :: 0 <= i < 4 ==>
      r.Get(i) == m.At(i, 0) * v.x + m.At(i, 1) * v.y + m.At(i, 2) * v.z + m.At(i, 3) * v.w
  {
    Vec4(Dot(m.r0, v), Dot(m.r1, v), Dot(m.r2, v), Dot(m.r3, v))
  }

  /** `operator*` (scalar): every row scaled. */
  function Scale(m: Mat4, s: int): (r: Mat4)
    ensures forall i, j :: 0 <= i < 4 && 0 <= j < 4 ==> r.At(i, j) == m.At(i, j) * s
  {
    Mat4(VScale(m.r0, s), VScale(m.r1, s), VScale(m.r2, s), VScale(m.r3, s))
  }

  /** The transpose, entry by entry: what `getTranspose` computes. */
  function Transpose(m: Mat4): (t: Mat4)
    ensures forall i, j :: 0 <= i < 4 && 0 <= j < 4 ==> t.At(j, i) == m.At(i, j)
  {
    Mat4(GetColumn(m, 0), GetColumn(m, 1), GetColumn(m, 2), GetColumn(m, 3))
  }

  /**
   * `det()`: the 24-term Leibniz expansion, term for term.  A matrix with a zero row,
   * or with its first two rows equal, is singular.
   */
  function Det(m: Mat4): (r: int)
    ensures m.r0 == Vec4(0, 0, 0, 0) || m.r3 == Vec4(0, 0, 0, 0) ==> r == 0
    ensures m.r0 == m.r1 ==> r == 0
  {
    var a, b, c, d := m.r0, m.r1, m.r2, m.r3;
    a.w * b.z * c.y * d.x - a.z * b.w * c.y * d.x - a.w * b.y * c.z * d.x + a.y * b.w * c.z * d.x +
    a.z * b.y * c.w * d.x - a.y * b.z * c.w * d.x - a.w * b.z * c.x * d.y + a.z * b.w * c.x * d.y +
    a.w * b.x * c.z * d.y - a.x * b.w * c.z * d.y - a.z * b.x * c.w * d.y + a.x * b.z * c.w * d.y +
    a.w * b.y * c.x * d.z - a.y * b.w * c.x * d.z - a.w * b.x * c.y * d.z + a.x * b.w * c.y * d.z +
    a.y * b.x * c.w * d.z - a.x * b.y * c.w * d.z - a.z * b.y * c.x * d.w + a.y * b.z * c.x * d.w +
    a.z * b.x * c.y * d.w - a.x * b.z * c.y * d.w - a.y * b.x * c.z * d.w + a.x * b.y * c.z * d.w
  }

  // ---------------------------------------------------------------------------
  // Properties
  // ---------------------------------------------------------------------------

  /** The identity has determinant 1. */
  lemma DetIdentity()
    ensures Det(Identity()) == 1
  {
  }

  /** A diagonal matrix has the product of its diagonal as determinant. */
  lemma DetDiagonal(p: int, q: int, r: int, s: int)
    ensures Det(Mat4(Vec4(p, 0, 0, 0), Vec4(0, q, 0, 0), Vec4(0, 0, r, 0), Vec4(0, 0, 0, s))) == p * q * r * s
  {
  }

  /** A matrix and its transpose have the same determinant. */
  lemma DetTranspose(m: Mat4)
    ensures Det(Transpose(m)) == Det(m)
  {
    var a, b, c, d := m.r0, m.r1, m.r2, m.r3;
    assert Transpose(m) == Mat4(Vec4(a.x, b.x, c.x, d.x), Vec4(a.y, b.y, c.y, d.y),
                                Vec4(a.z, b.z, c.z, d.z), Vec4(a.w, b.w, c.w, d.w));
    DetOfTransposedEntries(a.x, a.y, a.z, a.w, b.x, b.y, b.z, b.w, c.x, c.y, c.z, c.w, d.x, d.y, d.z, d.w);
  }

  /** The determinant identity of `DetTranspose`, over the sixteen entries. */
  lemma DetOfTransposedEntries(a0: int, a1: int, a2: int, a3: int, b0: int, b1: int, b2: int, b3: int,
                               c0: int, c1: int, c2: int, c3: int, d0: int, d1: int, d2: int, d3: int)
    ensures Det(Mat4(Vec4(a0, b0, c0, d0), Vec4(a1, b1, c1, d1), Vec4(a2, b2, c2, d2), Vec4(a3, b3, c3, d3)))
         == Det(Mat4(Vec4(a0, a1, a2, a3), Vec4(b0, b1, b2, b3), Vec4(c0, c1, c2, c3), Vec4(d0, d1, d2, d3)))
  {
    // Each term of the transposed expansion is a term of the original one, its factors reordered.
    Swap1(d0, c1, b2, a3); Swap2(c1, d0, b2, a3); Swap3(c1, b2, d0, a3); Swap1(c1, b2, a3, d0); Swap2(b2, c1, a3, d0); Swap1(b2, a3, c1, d0);
    Swap2(c0, d1, b2, a3); Swap3(c0, b2, d1, a3); Swap1(c0, b2, a3, d1); Swap2(b2, c0, a3, d1); Swap1(b2, a3, c0, d1);
    Swap1(d0, b1, c2, a3); Swap2(b1, d0, c2, a3); Swap3(b1, c2, d0, a3); Swap2(b1, c2, a3, d0); Swap1(b1, a3, c2, d0);
    Swap2(b0, d1, c2, a3); Swap3(b0, c2, d1, a3); Swap2(b0, c2, a3, d1); Swap1(b0, a3, c2, d1);
    Swap1(c0, b1, d2, a3); Swap3(b1, c0, d2, a3); Swap2(b1, c0, a3, d2); Swap1(b1, a3, c0, d2);
    Swap3(b0, c1, d2, a3); Swap2(b0, c1, a3, d2); Swap1(b0, a3, c1, d2);
    Swap1(d0, c1, a2, b3); Swap2(c1, d0, a2, b3); Swap3(c1, a2, d0, b3); Swap1(c1, a2, b3, d0); Swap2(a2, c1, b3, d0);
    Swap2(c0, d1, a2, b3); Swap3(c0, a2, d1, b3); Swap1(c0, a2, b3, d1); Swap2(a2, c0, b3, d1);
    Swap1(d0, a1, c2, b3); Swap2(a1, d0, c2, b3); Swap3(a1, c2, d0, b3); Swap2(a1, c2, b3, d0);
    Swap2(a0, d1, c2, b3); Swap3(a0, c2, d1, b3); Swap2(a0, c2, b3, d1);
    Swap1(c0, a1, d2, b3); Swap3(a1, c0, d2, b3); Swap2(a1, c0, b3, d2);
    Swap3(a0, c1, d2, b3); Swap2(a0, c1, b3, d2);
    Swap1(d0, b1, a2, c3); Swap2(b1, d0, a2, c3); Swap3(b1, a2, d0, c3); Swap1(b1, a2, c3, d0);
    Swap2(b0, d1, a2, c3); Swap3(b0, a2, d1, c3); Swap1(b0, a2, c3, d1);
    Swap1(d0, a1, b2, c3); Swap2(a1, d0, b2, c3); Swap3(a1, b2, d0, c3);
    Swap2(a0, d1, b2, c3); Swap3(a0, b2, d1, c3);
    Swap1(b0, a1, d2, c3); Swap3(a1, b0, d2, c3);
    Swap3(a0, b1, d2, c3);
    Swap1(c0, b1, a2, d3); Swap2(b1, c0, a2, d3); Swap1(b1, a2, c0, d3);
    Swap2(b0, c1, a2, d3); Swap1(b0, a2, c1, d3);
    Swap1(c0, a1, b2, d3); Swap2(a1, c0, b2, d3);
    Swap2(a0, c1, b2, d3);
    Swap1(b0, a1, c2, d3);
  }

  /** Exchanging two adjacent factors of a four-factor product. */
  lemma Swap1(x: int, y: int, z: int, w: int)
    ensures x * y * z * w == y * x * z * w
  {
  }

  lemma Swap2(x: int, y: int, z: int, w: int)
    ensures x * y * z * w == x * z * y * w
  {
  }

  lemma Swap3(x: int, y: int, z: int, w: int)
    ensures x * y * z * w == x * y * w * z
  {
  }

  /** Exchanging the first two rows negates the determinant. */
  lemma DetSwapRows(m: Mat4)
    ensures Det(Mat4(m.r1, m.r0, m.r2, m.r3)) == -Det(m)
  {
  }

  /** Transposing twice gives back the original. */
  lemma TransposeTwice(m: Mat4)
    ensures Transpose(Transpose(m)) == m
  {
    EntriesDetermine(Transpose(Transpose(m)), m);
  }

  /** `getColumn(c)` is row `c` of the transpose. */
  lemma ColumnIsTransposedRow(m: Mat4, c: nat)
    requires c < 4
    ensures GetColumn(m, c) == Transpose(m).Row(c)
  {
  }

  /** The identity is a right unit of the product. */
  lemma MulIdentityRight(m: Mat4)
    ensures Mul(m, Identity()) == m
  {
    EntriesDetermine(Mul(m, Identity()), m);
  }

  /** The identity is a left unit of the product. */
  lemma MulIdentityLeft(m: Mat4)
    ensures Mul(Identity(), m) == m
  {
    EntriesDetermine(Mul(Identity(), m), m);
  }

  /** The identity leaves every vector as it is. */
  lemma MulVecIdentity(v: Vec4)
    ensures MulVec(Identity(), v) == v
  {
  }

  /** Scaling by one leaves the matrix as it is. */
  lemma ScaleOne(m: Mat4)
    ensures Scale(m, 1) == m
  {
    EntriesDetermine(Scale(m, 1), m);
  }

  /** Over unbounded integers, subtracting what was added gives back the original. */
  lemma AddSubCancel(a: Mat4, b: Mat4)
    ensures Sub(Add(a, b), b) == a
  {
    EntriesDetermine(Sub(Add(a, b), b), a);
  }

  /** Addition is commutative. */
  lemma AddCommutes(a: Mat4, b: Mat4)
    ensures Add(a, b) == Add(b, a)
  {
    EntriesDetermine(Add(a, b), Add(b, a));
  }

  /** Negation is subtraction from the zero matrix. */
  lemma NegIsZeroMinus(a: Mat4)
    ensures Neg(a) == Sub(Mat4(Vec4(0, 0, 0, 0), Vec4(0, 0, 0, 0), Vec4(0, 0, 0, 0), Vec4(0, 0, 0, 0)), a)
  {
    EntriesDetermine(Neg(a), Sub(Mat4(Vec4(0, 0, 0, 0), Vec4(0, 0, 0, 0), Vec4(0, 0, 0, 0), Vec4(0, 0, 0, 0)), a));
  }

  // ---------------------------------------------------------------------------
  // The object: four rows overwritten in place
  // ---------------------------------------------------------------------------

  class Int4x4 {
    /** `data_[4]`. */
    const data: array<Vec4>

    ghost predicate Valid()
      reads this
    {
      data.Length == 4
    }

    function Value(): Mat4
      requires Valid()
      reads this, data
    {
      Mat4(data[0], data[1], data[2], data[3])
    }

    /** `mat4x4_t()`: the identity. */
    constructor ()
      ensures Valid() && fresh(data)
      ensures Value() == Identity()
    {
      data := new Vec4[4](i => if i == 0 then Vec4(1, 0, 0, 0) else if i == 1 then Vec4(0, 1, 0, 0)
                               else if i == 2 then Vec4(0, 0, 1, 0) else Vec4(0, 0, 0, 1));
    }

    /** `mat4x4_t(v1, v2, v3, v4)`: the four rows as given. */
    constructor FromRows(v1: Vec4, v2: Vec4, v3: Vec4, v4: Vec4)
      ensures Valid() && fresh(data)
      ensures Value() == Mat4(v1, v2, v3, v4)
    {
      data := new Vec4[4](i => if i == 0 then v1 else if i == 1 then v2 else if i == 2 then v3 else v4);
    }

    /** `operator+=`: each row gets the matching row of `other` added; `other` may be this object. */
    method AddAssign(other: Int4x4)
      requires Valid() && other.Valid()
      modifies data
      ensures Value() == Add(old(Value()), old(other.Value()))
    {
      data[0] := VAdd(data[0], other.data[0]);
      data[1] := VAdd(data[1], other.data[1]);
      data[2] := VAdd(data[2], other.data[2]);
      data[3] := VAdd(data[3], other.data[3]);
    }

    /** `operator-=`: each row gets the matching row of `other` subtracted; `other` may be this object. */
    method SubAssign(other: Int4x4)
      requires Valid() && other.Valid()
      modifies data
      ensures Value() == Sub(old(Value()), old(other.Value()))
    {
      data[0] := VSub(data[0], other.data[0]);
      data[1] := VSub(data[1], other.data[1]);
      data[2] := VSub(data[2], other.data[2]);
      data[3] := VSub(data[3], other.data[3]);
    }

    /**
     * `operator*=` (matrix): the columns of `other` are copied before any row is
     * overwritten, so the result is the old product even when `other` is this object.
     */
    method MulAssign(other: Int4x4)
      requires Valid() && other.Valid()
      modifies data
      ensures Value() == Mul(old(Value()), old(other.Value()))
    {
      var o := other.Value();
      var c0, c1, c2, c3 := GetColumn(o, 0), GetColumn(o, 1), GetColumn(o, 2), GetColumn(o, 3);
      data[0] := RowTimes(data[0], c0, c1, c2, c3);
      data[1] := RowTimes(data[1], c0, c1, c2, c3);
      data[2] := RowTimes(data[2], c0, c1, c2, c3);
      data[3] := RowTimes(data[3], c0, c1, c2, c3);
    }

    /** `operator*=` (scalar): every row scaled in place. */
    method ScaleAssign(s: int)
      requires Valid()
      modifies data
      ensures Value() == Scale(old(Value()), s)
    {
      data[0] := VScale(data[0], s);
      data[1] := VScale(data[1], s);
      data[2] := VScale(data[2], s);
      data[3] := VScale(data[3], s);
    }

    /** `getTranspose()`: start from the identity and copy entry (i, j) to (j, i), row by row. */
    method GetTranspose() returns (m: Mat4)
      requires Valid()
      ensures forall i, j :: 0 <= i < 4 && 0 <= j < 4 ==> m.At(j, i) == Value().At(i, j)
      ensures m == Transpose(Value())
    {
      m := Identity();
      var i := 0;
      while i < 4
        invariant 0 <= i <= 4
        invariant forall p, q :: 0 <= p < 4 && 0 <= q < 4 ==>
          m.At(p, q) == if q < i then data[q].Get(p) else Identity().At(p, q)
      {
        var j := 0;
        while j < 4
          invariant 0 <= j <= 4
          invariant forall p, q :: 0 <= p < 4 && 0 <= q < 4 ==>
            m.At(p, q) == if q < i || (q == i && p < j) then data[q].Get(p) else Identity().At(p, q)
        {
          m := m.Set(j, i, data[i].Get(j));
          j := j + 1;
        }
        i := i + 1;
      }
      EntriesDetermine(m, Transpose(Value()));
    }

    /** `transpose()`: the matrix is replaced by its transpose. */
    method TransposeInPlace()
      requires Valid()
      modifies data
      ensures Value() == Transpose(old(Value()))
    {
      var t := GetTranspose();
      data[0], data[1], data[2], data[3] := t.r0, t.r1, t.r2, t.r3;
    }
  }
}
