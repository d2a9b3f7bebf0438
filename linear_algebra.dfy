/** 3 x 3 matrices and column vectors over the reals, as numpy multiplies them. */
module LinearAlgebra {

  /** A 3 x 3 matrix, row by row. */
  datatype Mat3 = Mat3(
    m00: real, m01: real, m02: real,
    m10: real, m11: real, m12: real,
    m20: real, m21: real, m22: real)

  /** A column vector of three numbers. */
  datatype Col3 = Col3(x: real, y: real, w: real)

  /** The matrix product `A @ B`. */
  function MatMul(A: Mat3, B: Mat3): Mat3
  {
    Mat3(
      A.m00 * B.m00 + A.m01 * B.m10 + A.m02 * B.m20,
      A.m00 * B.m01 + A.m01 * B.m11 + A.m02 * B.m21,
      A.m00 * B.m02 + A.m01 * B.m12 + A.m02 * B.m22,
      A.m10 * B.m00 + A.m11 * B.m10 + A.m12 * B.m20,
      A.m10 * B.m01 + A.m11 * B.m11 + A.m12 * B.m21,
      A.m10 * B.m02 + A.m11 * B.m12 + A.m12 * B.m22,
      A.m20 * B.m00 + A.m21 * B.m10 + A.m22 * B.m20,
      A.m20 * B.m01 + A.m21 * B.m11 + A.m22 * B.m21,
      A.m20 * B.m02 + A.m21 * B.m12 + A.m22 * B.m22)
  }

  /** The matrix-vector product `A @ v`. */
  function MatVec(A: Mat3, v: Col3): Col3
  {
    Col3(
      A.m00 * v.x + A.m01 * v.y + A.m02 * v.w,
      A.m10 * v.x + A.m11 * v.y + A.m12 * v.w,
      A.m20 * v.x + A.m21 * v.y + A.m22 * v.w)
  }

  /** A matrix maps the homogeneous origin to its last column. */
  lemma MatVecOrigin(A: Mat3)
    ensures MatVec(A, Col3(0.0, 0.0, 1.0)) == Col3(A.m02, A.m12, A.m22)
  {
  }

  /** The transpose `A.T`. */
  function Transpose(A: Mat3): Mat3
  {
    Mat3(A.m00, A.m10, A.m20, A.m01, A.m11, A.m21, A.m02, A.m12, A.m22)
  }
}
