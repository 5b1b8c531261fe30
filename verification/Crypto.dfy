/** The AEAD wrapper of crates/llp-core/src/crypto.rs and its packet-counter nonce. */
module Crypto {
  import opened Bytes
  import opened Wrappers
  import opened Primitives

  datatype CryptoError = NonceOverflow | DecryptionError

  /** counter (8 octets, little-endian) followed by the low half of the session id. */
  function NonceBytes(sessionId: u64, counter: u64): Block12 {
    LittleEndian(8, counter) + LittleEndian(4, sessionId % 0x1_0000_0000)
  }

  /** A nonce determines its counter, and the part of the session id it carries. */
  lemma NonceIsInjective(s1: u64, c1: u64, s2: u64, c2: u64)
    requires NonceBytes(s1, c1) == NonceBytes(s2, c2)
    ensures c1 == c2 && s1 % 0x1_0000_0000 == s2 % 0x1_0000_0000
  {
    SpanValues();
    var n1, n2 := NonceBytes(s1, c1), NonceBytes(s2, c2);
    assert n1[..8] == LittleEndian(8, c1) && n2[..8] == LittleEndian(8, c2);
    assert n1[8..] == LittleEndian(4, s1 % 0x1_0000_0000) && n2[8..] == LittleEndian(4, s2 % 0x1_0000_0000);
    LittleEndianRoundTrip(8, c1);
    LittleEndianRoundTrip(8, c2);
    LittleEndianRoundTrip(4, s1 % 0x1_0000_0000);
    LittleEndianRoundTrip(4, s2 % 0x1_0000_0000);
  }

  /** Octet by octet: the counter's eight, least significant first, then the four low
      ones of the session id, least significant first. */
  lemma NonceOctets(sessionId: u64, counter: u64)
    ensures forall k :: 0 <= k < 8 ==> NonceBytes(sessionId, counter)[k] == counter / Span(k) % 256
    ensures forall k :: 0 <= k < 4 ==>
              NonceBytes(sessionId, counter)[8 + k] == sessionId % 0x1_0000_0000 / Span(k) % 256
  {
    forall k | 0 <= k < 8 ensures NonceBytes(sessionId, counter)[k] == counter / Span(k) % 256 {
      LittleEndianAt(8, counter, k);
    }
    forall k | 0 <= k < 4
      ensures NonceBytes(sessionId, counter)[8 + k] == sessionId % 0x1_0000_0000 / Span(k) % 256
    {
      LittleEndianAt(4, sessionId % 0x1_0000_0000, k);
    }
  }

  /** The two session ids agree in the half that nonces carry. */
  ghost predicate SameNonces(s1: u64, s2: u64) {
    forall c: u64 :: NonceBytes(s1, c) == NonceBytes(s2, c)
  }

  class AeadCipher {
    const suite: Suite
    const key: Block32
    const sessionId: u32
    var counter: u64

    constructor (suite: Suite, key: Block32, sessionId: u64)
      ensures this.suite == suite && this.key == key
      ensures this.sessionId == sessionId % 0x1_0000_0000 && counter == 0
      ensures SameNonces(this.sessionId, sessionId)
    {
      this.suite, this.key := suite, key;
      this.sessionId := sessionId % 0x1_0000_0000;
      assert sessionId % 0x1_0000_0000 % 0x1_0000_0000 == sessionId % 0x1_0000_0000;
      counter := 0;
    }

    /** Seals under the current counter, then steps it; at the last counter value
        the sealed text is dropped and nothing moves. */
    method Encrypt(plaintext: bytes, aad: bytes) returns (r: Result<bytes, CryptoError>)
      modifies this
      ensures old(counter) < U64_MAX ==>
                && r == Success(suite.seal(key, NonceBytes(sessionId, old(counter)), aad, plaintext))
                && counter == old(counter) + 1
      ensures old(counter) == U64_MAX ==> r == Failure(NonceOverflow) && counter == old(counter)
    {
      var ciphertext := suite.seal(key, NonceBytes(sessionId, counter), aad, plaintext);
      if counter == U64_MAX {
        return Failure(NonceOverflow);
      }
      counter := counter + 1;
      return Success(ciphertext);
    }

    /** Opens under an explicit counter; the cipher's own counter plays no part. */
    function Decrypt(ciphertext: bytes, aad: bytes, nonceCounter: u64): (r: Result<bytes, CryptoError>)
      ensures forall p :: ciphertext == suite.seal(key, NonceBytes(sessionId, nonceCounter), aad, p) ==> r == Success(p)
    {
      match suite.open(key, NonceBytes(sessionId, nonceCounter), aad, ciphertext)
      case Some(p) => Success(p)
      case None => Failure(DecryptionError)
    }
  }
}
