/** An established session: sequence numbers outward, the replay window inward
    (crates/llp-core/src/session.rs). */
module Session {
  import opened Bytes
  import opened Wrappers
  import opened Primitives
  import opened Crypto
  import opened Profiles
  import opened ReplayWindow

  const REPLAY_WINDOW_SIZE := 256
  const REKEY_THRESHOLD := 0x8000_0000

  datatype SessionError =
    | RekeyRequired
    | DuplicateSequenceNumber(number: u32)
    | CryptoFailure(error: CryptoError)

  /** The receiver's verdict on a packet, given what its window has seen. */
  function Verdict(suite: Suite, key: Block32, sessionId: u64, h: History,
                   ciphertext: bytes, aad: bytes, n: u32): Result<bytes, SessionError>
  {
    if !h.Accepts(n) then Failure(DuplicateSequenceNumber(n))
    else match suite.open(key, NonceBytes(sessionId, n), aad, ciphertext)
      case Some(p) => Success(p)
      case None => Failure(CryptoFailure(DecryptionError))
  }

  class Session {
    const sessionId: u64
    const suite: Suite
    const sessionKey: Block32
    const mimicryProfile: MimicryProfile
    const txCipher: AeadCipher
    const rxCipher: AeadCipher
    const rxReplayWindow: ReplayWindow
    var txSequence: u32
    var rekeyRequired: bool
    /** How many times encryption has been asked for. */
    ghost var calls: nat

    ghost predicate Valid()
      reads this, txCipher, rxReplayWindow
    {
      Sends() && Receives()
    }

    /** The receiving half, which sending does not touch. */
    ghost predicate Receives()
      reads rxReplayWindow
    {
      && rxCipher.suite == suite && rxCipher.key == sessionKey && SameNonces(rxCipher.sessionId, sessionId)
      && rxReplayWindow.windowSize == REPLAY_WINDOW_SIZE && rxReplayWindow.Valid()
    }

    /** The sending half. The sequence and nonce counters are both the number of calls,
        until the sequence is exhausted; from then on only the nonce counter moves. */
    ghost predicate Sends()
      reads this, txCipher
    {
      && txCipher.suite == suite && txCipher.key == sessionKey && SameNonces(txCipher.sessionId, sessionId)
      && txSequence == (if calls < U32_MAX then calls else U32_MAX)
      && txCipher.counter == (if calls < U64_MAX then calls else U64_MAX)
      && (rekeyRequired <==> txSequence >= REKEY_THRESHOLD)
    }

    ghost function Received(): History
      reads rxReplayWindow
    {
      rxReplayWindow.history
    }

    constructor (suite: Suite, sessionId: u64, sessionKey: Block32, profile: MimicryProfile)
      ensures Valid() && fresh(txCipher) && fresh(rxReplayWindow)
      ensures this.sessionId == sessionId && this.suite == suite && this.sessionKey == sessionKey
      ensures mimicryProfile == profile && calls == 0 && Received() == FRESH
    {
      this.sessionId, this.suite, this.sessionKey, mimicryProfile := sessionId, suite, sessionKey, profile;
      txCipher := new AeadCipher(suite, sessionKey, sessionId);
      rxCipher := new AeadCipher(suite, sessionKey, sessionId);
      rxReplayWindow := new ReplayWindow(REPLAY_WINDOW_SIZE);
      txSequence, rekeyRequired, calls := 0, false, 0;
    }

    /** Call number k (from 0) is sealed under nonce k and returns sequence k, for
        k < 2^32 - 1; every later call fails. */
    method EncryptPayload(plaintext: bytes, aad: bytes) returns (r: Result<(bytes, u32), SessionError>)
      requires Sends()
      modifies this, txCipher
      ensures Sends() && calls == old(calls) + 1
      ensures rekeyRequired <==> calls >= 0x8000_0000
      ensures old(calls) < U32_MAX ==>
                r == Success((suite.seal(sessionKey, NonceBytes(sessionId, old(calls)), aad, plaintext), old(calls)))
      ensures U32_MAX <= old(calls) < U64_MAX ==> r == Failure(RekeyRequired)
      ensures old(calls) >= U64_MAX ==> r == Failure(CryptoFailure(NonceOverflow))
    {
      calls := calls + 1;
      var sealed := txCipher.Encrypt(plaintext, aad);
      if sealed.Failure? {
        return Failure(CryptoFailure(sealed.error));
      }
      var sequence := txSequence;
      if txSequence == U32_MAX {
        return Failure(RekeyRequired);
      }
      txSequence := txSequence + 1;
      if txSequence >= REKEY_THRESHOLD {
        rekeyRequired := true;
      }
      return Success((sealed.value, sequence));
    }

    /** The number is consumed before the packet is opened. */
    method DecryptPayload(ciphertext: bytes, aad: bytes, n: u32) returns (r: Result<bytes, SessionError>)
      requires Receives()
      modifies rxReplayWindow
      ensures Receives() && Received() == old(Received()).Record(REPLAY_WINDOW_SIZE, n)
      ensures r == Verdict(suite, sessionKey, sessionId, old(Received()), ciphertext, aad, n)
    {
      var isNew := rxReplayWindow.CheckAndUpdate(n);
      if !isNew {
        return Failure(DuplicateSequenceNumber(n));
      }
      var plain := rxCipher.Decrypt(ciphertext, aad, n);
      match plain
      case Success(p) => return Success(p);
      case Failure(e) => return Failure(CryptoFailure(e));
    }
  }
}
