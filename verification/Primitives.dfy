/** The cryptographic libraries as values: arbitrary functions on octets, known
    only through the laws the protocol relies on. */
module Primitives {
  import opened Bytes
  import opened Wrappers

  const AEAD_TAG_SIZE := 16

  datatype RawSuite = RawSuite(
    // X25519: the public half of a secret, and the agreed value
    public: Block32 -> Block32,
    agree: (Block32, Block32) -> Block32,
    // HKDF-SHA256: input key material, salt, info
    derive: (bytes, bytes, bytes) -> Block32,
    // HMAC-SHA256: key, data
    hmac: (bytes, bytes) -> Block32,
    // ChaCha20-Poly1305: key, nonce, additional data, plaintext or ciphertext with tag
    seal: (Block32, Block12, bytes, bytes) -> bytes,
    open: (Block32, Block12, bytes, bytes) -> Option<bytes>)

  /** Section 6.1 of RFC 7748 (both sides agree) and section 2.8 of RFC 8439
      (a 16-octet tag; opening undoes sealing). Nothing is assumed injective. */
  ghost predicate Lawful(s: RawSuite) {
    && (forall a, b :: s.agree(a, s.public(b)) == s.agree(b, s.public(a)))
    && (forall k, n, aad, p :: |s.seal(k, n, aad, p)| == |p| + AEAD_TAG_SIZE)
    && (forall k, n, aad, p :: s.open(k, n, aad, s.seal(k, n, aad, p)) == Some(p))
    && (forall k, n, aad, c :: s.open(k, n, aad, c).Some? ==> |c| == |s.open(k, n, aad, c).value| + AEAD_TAG_SIZE)
  }

  function Zeros(n: nat): (z: bytes)
    ensures |z| == n
  {
    seq(n, _ => 0)
  }

  /** A suite without any secrecy, which shows only that the laws are consistent. */
  ghost function NullSuite(): (s: RawSuite)
    ensures Lawful(s)
  {
    var s := RawSuite(
      k => k,
      (a: Block32, b: Block32) => Zeros(32),
      (ikm, salt, info) => Zeros(32),
      (k, d) => Zeros(32),
      (k: Block32, n: Block12, aad: bytes, p: bytes) => p + Zeros(AEAD_TAG_SIZE),
      (k: Block32, n: Block12, aad: bytes, c: bytes) =>
        if |c| < AEAD_TAG_SIZE then None else Some(c[..|c| - AEAD_TAG_SIZE]));
    assert forall p: bytes :: (p + Zeros(AEAD_TAG_SIZE))[..|p|] == p;
    s
  }

  type Suite = s: RawSuite | Lawful(s) ghost witness NullSuite()
}
