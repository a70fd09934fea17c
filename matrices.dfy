/** Transform matrices of the frame composer, held symbolically.

    The renderer only multiplies matrices, inverts-and-transposes them for
    normals, and hands them to drawables. A matrix here is the term that built
    it: products are never simplified (not even re-associated), so two
    matrices are equal exactly when they were built by the same products in the
    same order. This is an uninterpreted matrix algebra. */
module Matrices {

  datatype Matrix =
    | Given(name: nat)                    // supplied by a collaborator: view, model, projection, an offset, a local matrix
    | Product(left: Matrix, right: Matrix)
    | InverseTranspose(of: Matrix)        // m.inverse().transpose()

  /** `a * b` exactly as Eigen evaluates it (no re-association). */
  function Mul(a: Matrix, b: Matrix): Matrix
  {
    Product(a, b)
  }
}
