/**
 * Values the deferred renderer (`sigma::opengl::renderer`) passes around without
 * looking inside them: glm matrices and vectors, `float` scalars, pointers, and
 * view frusta.
 */
module Scene {

  /** A `float`. */
  type Scalar(==, 0)

  /** A `glm::mat4`. */
  type Matrix(==, 0)

  /** A `glm::mat3`. */
  type NormalMatrix(==, 0)

  /** A `glm::vec3`. */
  type Position(==, 0)

  /** A pointer (to a technique or a material), compared by address; 0 is `nullptr`. */
  type Ptr = nat

  const NULL: Ptr := 0

  /** `std::size_t(-1)` on a 64-bit target. */
  const SIZE_MAX: nat := 0xFFFF_FFFF_FFFF_FFFF

  /** `frustum{fovy, aspect, z_near, z_far, view}`. */
  datatype Frustum = Frustum(fovy: Scalar, aspect: Scalar, zNear: Scalar, zFar: Scalar, view: Matrix)

  /** Regrouping a concatenation of three sequences. */
  lemma AppendAssoc<T>(a: seq<T>, b: seq<T>, c: seq<T>)
    ensures a + b + c == a + (b + c)
  {
  }
}
