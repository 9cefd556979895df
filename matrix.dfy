/**
 * 4x4 matrices as a free term algebra: the model never interprets glm's
 * products, inverses or transposes, it only records which were formed and in
 * which order. Two terms are equal exactly when they were built the same way,
 * so every equation proved about them holds for any interpretation of the
 * operations (in particular for glm's).
 */
module Matrix {

  datatype Mat =
    | Identity                  // glm::mat4(1.0)
    | Given(tag: nat)           // a matrix supplied from outside (mesh file, animator)
    | RotateX(angle: real)      // glm::rotate(glm::mat4(1.0), angle, vec3(1,0,0))
    | RotateZ(angle: real)      // glm::rotate(glm::mat4(1.0), angle, vec3(0,0,1))
    | Mul(l: Mat, r: Mat)       // l * r
    | Inverse(m: Mat)           // glm::inverse(m)
    | Transpose(m: Mat)         // glm::transpose(m)
}
