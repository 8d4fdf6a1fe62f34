/** The secp256k1 primitives the puzzle is built on, kept uninterpreted.
    Public-key derivation, point addition and the address of a point are
    supplied as functions; the one algebraic fact the puzzle relies on --
    adding public keys adds their private keys modulo the group order -- is
    a named hypothesis, `Homomorphic`, that lemmas take as a premise. */
module Curve {
  import opened Token

  /** The order n of the secp256k1 base point (SEC 2, section 2.4.1). */
  const ORDER: nat := 0xFFFFFFFF_FFFFFFFF_FFFFFFFF_FFFFFFFE_BAAEDCE6_AF48A03B_BFD25E8C_D0364141

  /** A valid private key: an integer in [1, n). */
  type Scalar = k: nat | 1 <= k < ORDER witness 1

  /** An affine curve point (x, y). */
  datatype Point = Point(x: nat, y: nat)

  /** Raw ECDSA signature bytes. */
  type Signature = seq<bv8>

  datatype Curve = Curve(
    publicKey: Scalar -> Point,
    add: (Point, Point) -> Point,
    addressOf: Point -> Address,
    onCurve: Point -> bool)

  /** The combined private key (a + b) mod n; 0 when the two keys cancel. */
  function CombineKeys(a: Scalar, b: Scalar): (k: nat)
    ensures k < ORDER
    ensures k == a + b || k + ORDER == a + b
  {
    (a + b) % ORDER
  }

  /** Point addition agrees with scalar addition modulo n on public keys. */
  ghost predicate Homomorphic(c: Curve) {
    forall a: Scalar, b: Scalar :: CombineKeys(a, b) != 0 ==>
      c.add(c.publicKey(a), c.publicKey(b)) == c.publicKey(CombineKeys(a, b))
  }
}
