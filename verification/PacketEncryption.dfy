/** The C# client's frames (client-csharp/LLPClient/Crypto/PacketEncryption.cs),
    in unchecked uint and int arithmetic. */
module PacketEncryption {
  import opened Bytes
  import opened Wrappers
  import opened Primitives
  import opened Crypto
  import opened DotNet
  import opened Frames

  const INT_MAX := 0x7FFF_FFFF
  /** The longest byte array the runtime allocates. */
  const MAX_ARRAY := 0x7FFF_FFC7

  function ToUInt32(n: int): u32 {
    n % 0x1_0000_0000
  }

  /** The unchecked conversion of any integer to int. */
  function ToInt32(n: int): (r: int)
    ensures -0x8000_0000 <= r <= INT_MAX
  {
    (n + 0x8000_0000) % 0x1_0000_0000 - 0x8000_0000
  }

  /** [length][nonce][ciphertext][tag] */
  function Prefixed(frame: bytes): bytes {
    BigEndian(4, |frame| % 0x1_0000_0000) + frame
  }

  /** What Decrypt promises: a length field between 28 and what follows it, and a
      frame of that length that opens under the nonce it carries. */
  function Opened(suite: Suite, key: Block32, packet: bytes): Option<bytes> {
    if |packet| < 4 + MIN_FRAME_SIZE then None
    else
      var length := FromBigEndian(packet[..4]);
      if MIN_FRAME_SIZE <= length <= |packet| - 4
      then suite.open(key, packet[4..16], [], packet[16..4 + length])
      else None
  }

  /** The ciphertext length Decrypt computes, wrapping at every step. */
  function CiphertextLength(length: u32): int {
    ToInt32(ToInt32(ToInt32(length) - NONCE_SIZE) - AEAD_TAG_SIZE)
  }

  lemma WrapsOnce(n: int)
    ensures 0 <= n <= INT_MAX ==> ToInt32(n) == n
    ensures INT_MAX < n <= U32_MAX ==> ToInt32(n) == n - 0x1_0000_0000
    ensures -0x8000_0000 <= n < 0 ==> ToInt32(n) == n
    ensures -0x1_0000_0000 <= n < -0x8000_0000 ==> ToInt32(n) == n + 0x1_0000_0000
  {
  }

  /** Whatever the length field says, the two checks let through exactly the
      lengths that fit, and for those nothing has wrapped. */
  lemma WraparoundIsHarmless(length: u32, size: nat)
    requires 4 + MIN_FRAME_SIZE <= size <= INT_MAX
    ensures ToUInt32(4 + length) <= size && CiphertextLength(length) >= 0 <==> MIN_FRAME_SIZE <= length <= size - 4
    ensures MIN_FRAME_SIZE <= length <= size - 4 ==> CiphertextLength(length) == length - MIN_FRAME_SIZE
  {
    WrapsOnce(length);
    WrapsOnce(ToInt32(length) - NONCE_SIZE);
    WrapsOnce(ToInt32(ToInt32(length) - NONCE_SIZE) - AEAD_TAG_SIZE);
  }

  lemma Behind(start: bytes, a: bytes, b: bytes, c: bytes)
    ensures [] + start + a + b + c == start + (a + b + c)
  {
  }

  class PacketEncryption {
    const suite: Suite
    const sessionKey: Block32
    const sessionId: u64
    var sendCounter: u64
    var receiveCounter: u64

    constructor (suite: Suite, sessionKey: Block32, sessionId: u64)
      ensures this.suite == suite && this.sessionKey == sessionKey && this.sessionId == sessionId
      ensures sendCounter == 0 && receiveCounter == 0
    {
      this.suite, this.sessionKey, this.sessionId := suite, sessionKey, sessionId;
      sendCounter, receiveCounter := 0, 0;
    }

    method BuildNonce(counter: u64) returns (nonce: Block12)
      ensures nonce == NonceBytes(sessionId, counter)
    {
      var buffer := new byte[NONCE_SIZE];
      Copy(LittleEndian(8, counter), 0, buffer, 0, 8);
      Copy(LittleEndian(4, ToUInt32(sessionId)), 0, buffer, 8, 4);
      nonce := buffer[..];
    }

    /** The counter is spent even when the packet cannot be allocated. */
    method Encrypt(plaintext: bytes) returns (packet: Option<bytes>)
      modifies this`sendCounter
      ensures sendCounter == (old(sendCounter) + 1) % 0x1_0000_0000_0000_0000
      ensures packet == if |plaintext| + 4 + MIN_FRAME_SIZE <= MAX_ARRAY
                        then Some(Prefixed(Frame(suite, sessionKey, sessionId, old(sendCounter), plaintext)))
                        else None
    {
      var nonce := BuildNonce(sendCounter);
      sendCounter := (sendCounter + 1) % 0x1_0000_0000_0000_0000;
      if 4 + NONCE_SIZE + |plaintext| + AEAD_TAG_SIZE > MAX_ARRAY {
        return None;
      }
      var sealed := suite.seal(sessionKey, nonce, [], plaintext);
      var ciphertext, tag := sealed[..|plaintext|], sealed[|plaintext|..];
      var buffer := Assemble(nonce, ciphertext, tag);
      assert nonce + sealed == nonce + ciphertext + tag;
      return Some(buffer);
    }

    method Assemble(nonce: Block12, ciphertext: bytes, tag: bytes) returns (packet: bytes)
      requires |tag| == AEAD_TAG_SIZE && |ciphertext| + 4 + MIN_FRAME_SIZE <= MAX_ARRAY
      ensures packet == Prefixed(nonce + ciphertext + tag)
    {
      var buffer := new byte[4 + NONCE_SIZE + |ciphertext| + AEAD_TAG_SIZE];
      var length := ToUInt32(NONCE_SIZE + |ciphertext| + AEAD_TAG_SIZE);
      ReversedLittleEndian(4, length);
      var lengthBytes := Reversed(LittleEndian(4, length));
      var offset := Fill(lengthBytes, buffer, 0);
      offset := Fill(nonce, buffer, offset);
      offset := Fill(ciphertext, buffer, offset);
      offset := Fill(tag, buffer, offset);
      packet := buffer[..];
      assert packet == buffer[..offset] == [] + lengthBytes + nonce + ciphertext + tag;
      Behind(lengthBytes, nonce, ciphertext, tag);
    }

    /** Total on every array: each Copy's bounds are proved, wraparound included. */
    method Decrypt(packet: bytes) returns (plaintext: Option<bytes>)
      requires |packet| <= INT_MAX
      modifies this`receiveCounter
      ensures plaintext == Opened(suite, sessionKey, packet)
      ensures receiveCounter == if plaintext.Some? then (old(receiveCounter) + 1) % 0x1_0000_0000_0000_0000
                                else old(receiveCounter)
    {
      if |packet| < 4 + NONCE_SIZE + AEAD_TAG_SIZE {
        return None;
      }
      var offset := 0;
      var length := ReadLength(packet);
      offset := offset + 4;
      WraparoundIsHarmless(length, |packet|);
      if |packet| < ToUInt32(4 + length as int) {
        return None;
      }
      var nonce := CopyOut(packet, offset, NONCE_SIZE);
      offset := offset + NONCE_SIZE;
      var ciphertextLen := ToInt32(ToInt32(ToInt32(length) - NONCE_SIZE) - AEAD_TAG_SIZE);
      if ciphertextLen < 0 {
        return None;
      }
      var ciphertext := CopyOut(packet, offset, ciphertextLen);
      offset := offset + ciphertextLen;
      var tag := CopyOut(packet, offset, AEAD_TAG_SIZE);
      assert ciphertext[..] + tag[..] == packet[16..4 + length];
      plaintext := suite.open(sessionKey, nonce[..], [], ciphertext[..] + tag[..]);
      if plaintext.Some? {
        receiveCounter := (receiveCounter + 1) % 0x1_0000_0000_0000_0000;
      }
    }

    method ReadLength(packet: bytes) returns (length: u32)
      requires |packet| >= 4
      ensures length == FromBigEndian(packet[..4])
    {
      SpanValues();
      var lengthBytes := CopyOut(packet, 0, 4);
      FromReversed(packet[..4]);
      length := FromLittleEndian(Reversed(lengthBytes[..]));
    }
  }

  /** The length comes first, most significant octet first. */
  lemma PrefixLayout(frame: bytes)
    requires |frame| < 0x1_0000_0000
    ensures var p, n := Prefixed(frame), |frame|;
            && p[0] == n / 0x100_0000 % 256 && p[1] == n / 0x1_0000 % 256 && p[2] == n / 0x100 % 256 && p[3] == n % 256
            && p[4..] == frame
  {
    assert Span(1) == 0x100 && Span(2) == 0x1_0000 && Span(3) == 0x100_0000;
    BigEndianAt(4, |frame|, 0);
    BigEndianAt(4, |frame|, 1);
    BigEndianAt(4, |frame|, 2);
    BigEndianAt(4, |frame|, 3);
  }

  /** What opens, told from the octets: a length from 28 up to what follows it, and
      under the nonce after it that many octets less the nonce. */
  lemma OpensExactly(suite: Suite, key: Block32, packet: bytes, ip: bytes)
    ensures Opened(suite, key, packet) == Some(ip) <==>
              && |packet| >= 32
              && var length :=
                   0x100_0000 * packet[0] as int + 0x1_0000 * packet[1] as int + 256 * packet[2] as int + packet[3];
                 28 <= length <= |packet| - 4 && suite.open(key, packet[4..16], [], packet[16..4 + length]) == Some(ip)
  {
    if |packet| >= 32 {
      assert packet[..4] == [packet[0], packet[1], packet[2], packet[3]];
      FourOctets(packet[0], packet[1], packet[2], packet[3]);
    }
  }

  lemma Slices(prefix: bytes, frame: bytes, rest: bytes)
    requires |prefix| == 4 && |frame| >= 12
    ensures var p := prefix + frame + rest;
            && |p| == 4 + |frame| + |rest| && p[..4] == prefix
            && p[4..16] == frame[..12] && p[16..4 + |frame|] == frame[12..]
  {
  }

  lemma PrefixedOpens(suite: Suite, key: Block32, frame: bytes, rest: bytes)
    requires MIN_FRAME_SIZE <= |frame| < 0x1_0000_0000
    ensures Opened(suite, key, Prefixed(frame) + rest) == suite.open(key, frame[..12], [], frame[12..])
  {
    var prefix := BigEndian(4, |frame|);
    assert |frame| % 0x1_0000_0000 == |frame|;
    assert Prefixed(frame) == prefix + frame;
    Slices(prefix, frame, rest);
    assert FromBigEndian(prefix) == |frame| by {
      SpanValues();
      BigEndianRoundTrip(4, |frame|);
    }
  }

  /** Decrypting undoes encrypting, for every packet that can be built, whatever comes
      after it. */
  lemma DecryptUndoesEncrypt(suite: Suite, key: Block32, sessionId: u64, counter: u64, ip: bytes, rest: bytes)
    requires |ip| + 4 + MIN_FRAME_SIZE <= MAX_ARRAY
    ensures Opened(suite, key, Prefixed(Frame(suite, key, sessionId, counter, ip)) + rest) == Some(ip)
  {
    var f := Frame(suite, key, sessionId, counter, ip);
    PrefixedOpens(suite, key, f, rest);
    FrameCounter(suite, key, sessionId, counter, ip);
    assert f[..12] == NonceBytes(sessionId, counter);
  }

  /** Without its length prefix a C# packet is a frame the server recovers. */
  lemma ServerRecoversCSharpFrames(suite: Suite, key: Block32, sessionId: u64, receiveCounter: u64, counter: u64,
                                   ip: bytes)
    requires receiveCounter <= counter
    ensures Delivered(suite, key, sessionId, receiveCounter,
                      Prefixed(Frame(suite, key, sessionId, counter, ip))[4..]) == Some(ip)
  {
    FrameIsRecovered(suite, key, sessionId, receiveCounter, counter, ip);
    assert Prefixed(Frame(suite, key, sessionId, counter, ip))[4..] == Frame(suite, key, sessionId, counter, ip);
  }
}
