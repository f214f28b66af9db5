/** Conversion of OpenVR's row-major raw matrices into libgdx's column-major
    16-element `Matrix4.val` layout. Both conversions only copy elements, so
    the element type is kept as `real` and no arithmetic is involved. */
module Matrices {

  /** OpenVR `HmdMatrix44_t.m`: 4 rows of 4, row-major. Also libgdx `Matrix4.val`. */
  type Mat44 = m: seq<real> | |m| == 16 witness seq(16, _ => 0.0)

  /** OpenVR `HmdMatrix34_t.m`: 3 rows of 4, row-major (an affine transform). */
  type Mat34 = m: seq<real> | |m| == 12 witness seq(12, _ => 0.0)

  /** The libgdx identity matrix, the value of a freshly constructed `Matrix4`. */
  const Identity: Mat44 := [1.0, 0.0, 0.0, 0.0,
                            0.0, 1.0, 0.0, 0.0,
                            0.0, 0.0, 1.0, 0.0,
                            0.0, 0.0, 0.0, 1.0]

  /** `hmdMat4toMatrix4`: element (row r, column c) of the raw matrix lands at
      column-major position 4c + r, i.e. the raw array is transposed. */
  function HmdMat4ToMatrix4(m: Mat44): (v: Mat44)
    ensures forall r, c :: 0 <= r < 4 && 0 <= c < 4 ==> v[4 * c + r] == m[4 * r + c]
  {
    [m[0], m[4], m[8],  m[12],
     m[1], m[5], m[9],  m[13],
     m[2], m[6], m[10], m[14],
     m[3], m[7], m[11], m[15]]
  }

  /** `hmdMat34ToMatrix4`: rows 0-2 are transposed exactly as above, the missing
      bottom row is synthesised as 0, 0, 0, 1 and the translation column
      (m[3], m[7], m[11]) ends up in val[12], val[13] and val[14]. */
  function HmdMat34ToMatrix4(m: Mat34): (v: Mat44)
    ensures forall r, c :: 0 <= r < 3 && 0 <= c < 4 ==> v[4 * c + r] == m[4 * r + c]
    ensures v[3] == 0.0 && v[7] == 0.0 && v[11] == 0.0 && v[15] == 1.0
    ensures v[12..15] == [m[3], m[7], m[11]]
  {
    [m[0], m[4], m[8],  0.0,
     m[1], m[5], m[9],  0.0,
     m[2], m[6], m[10], 0.0,
     m[3], m[7], m[11], 1.0]
  }

  /** The 4x4 conversion is a transpose, so applying it twice gives the input back. */
  lemma Mat4RoundTrip(m: Mat44)
    ensures HmdMat4ToMatrix4(HmdMat4ToMatrix4(m)) == m
  {
    var v := HmdMat4ToMatrix4(HmdMat4ToMatrix4(m));
    forall k | 0 <= k < 16 ensures v[k] == m[k] {
      var r, c := k / 4, k % 4;
      assert k == 4 * r + c;
    }
  }

  /** The 3x4 conversion is the 4x4 one applied to the raw matrix completed
      with the affine bottom row 0, 0, 0, 1. */
  lemma Mat34IsCompletedMat4(m: Mat34)
    ensures HmdMat34ToMatrix4(m) == HmdMat4ToMatrix4(m + [0.0, 0.0, 0.0, 1.0])
  {
    var a, b := HmdMat34ToMatrix4(m), HmdMat4ToMatrix4(m + [0.0, 0.0, 0.0, 1.0]);
    forall k | 0 <= k < 16 ensures a[k] == b[k] {
      var r, c := k % 4, k / 4;
      assert k == 4 * c + r;
    }
  }

  /** An identity rotation with translation (x, y, z) becomes a column-major
      matrix whose upper-left 3x3 is the identity and whose translation column
      is (x, y, z). */
  lemma PureTranslation(x: real, y: real, z: real)
    ensures var v := HmdMat34ToMatrix4([1.0, 0.0, 0.0, x,
                                        0.0, 1.0, 0.0, y,
                                        0.0, 0.0, 1.0, z]);
            v[..12] == Identity[..12] && v[12..15] == [x, y, z] && v[15] == 1.0
  {
  }
}
