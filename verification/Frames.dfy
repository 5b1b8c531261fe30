/** VPN data frames on the server (crates/llp-server/src/client_handler.rs). */
module Frames {
  import opened Bytes
  import opened Wrappers
  import opened Primitives
  import opened Crypto
  import opened ReplayStream

  const NONCE_SIZE := 12
  const MIN_FRAME_SIZE := NONCE_SIZE + AEAD_TAG_SIZE

  /** [nonce][ciphertext and tag], sealed without additional data. */
  function Frame(suite: Suite, key: Block32, sessionId: u64, counter: u64, ip: bytes): (f: bytes)
    ensures |f| == |ip| + MIN_FRAME_SIZE
  {
    NonceBytes(sessionId, counter) + suite.seal(key, NonceBytes(sessionId, counter), [], ip)
  }

  /** The counter a frame carries in its nonce. */
  function FrameNumber(frame: bytes): u64
    requires |frame| >= MIN_FRAME_SIZE
  {
    SpanValues();
    FromLittleEndian(frame[..8])
  }

  /** Packets that find a counter value left are framed under 0, 1, 2, ... */
  function FramesOf(suite: Suite, key: Block32, sessionId: u64, packets: seq<bytes>): (fs: seq<bytes>)
    ensures |fs| == if |packets| < U64_MAX then |packets| else U64_MAX
  {
    seq(if |packets| < U64_MAX then |packets| else U64_MAX, i requires 0 <= i < |packets| && i < U64_MAX =>
      Frame(suite, key, sessionId, i, packets[i]))
  }

  /** A new cipher, wound forward by sealing nothing `sendCounter` times. */
  method SealAt(suite: Suite, key: Block32, sessionId: u64, sendCounter: u64, ip: bytes)
    returns (r: Result<bytes, CryptoError>)
    ensures r == if sendCounter < U64_MAX then Success(suite.seal(key, NonceBytes(sessionId, sendCounter), [], ip))
                 else Failure(NonceOverflow)
  {
    var cipher := new AeadCipher(suite, key, sessionId);
    for k := 0 to sendCounter
      invariant cipher.counter == k
    {
      var _ := cipher.Encrypt([], []);
    }
    r := cipher.Encrypt(ip, []);
  }

  /** The send task. A packet that finds no counter value left is dropped. */
  method SendTask(suite: Suite, key: Block32, sessionId: u64, packets: seq<bytes>) returns (frames: seq<bytes>)
    ensures frames == FramesOf(suite, key, sessionId, packets)
  {
    frames := [];
    var sendCounter: u64 := 0;
    for i := 0 to |packets|
      invariant sendCounter == |frames| == if i < U64_MAX then i else U64_MAX
      invariant forall j :: 0 <= j < |frames| ==> frames[j] == Frame(suite, key, sessionId, j, packets[j])
    {
      var sealed := SealAt(suite, key, sessionId, sendCounter, packets[i]);
      if sealed.Success? {
        var nonce := LittleEndian(8, sendCounter) + LittleEndian(4, sessionId % 0x1_0000_0000);
        frames := frames + [nonce + sealed.value];
        sendCounter := sendCounter + 1;
      }
    }
  }

  /** The receive counter after a frame numbered n, in wrapping u64 arithmetic. */
  function NextCounter(receiveCounter: u64, n: u64): u64 {
    if n < receiveCounter then receiveCounter else (n + 1) % 0x1_0000_0000_0000_0000
  }

  /** The verdict on a frame: what, if anything, reaches the TUN side. */
  function Delivered(suite: Suite, key: Block32, sessionId: u64, receiveCounter: u64, frame: bytes): Option<bytes> {
    if |frame| < MIN_FRAME_SIZE then None
    else
      var n := FrameNumber(frame);
      if n < receiveCounter then None
      else suite.open(key, NonceBytes(sessionId, n), [], frame[NONCE_SIZE..])
  }

  class ClientSession {
    const suite: Suite
    const sessionId: u64
    const sessionKey: Block32
    var receiveCounter: u64

    constructor (suite: Suite, sessionId: u64, sessionKey: Block32)
      ensures this.suite == suite && this.sessionId == sessionId && this.sessionKey == sessionKey
      ensures receiveCounter == 0
    {
      this.suite, this.sessionId, this.sessionKey, receiveCounter := suite, sessionId, sessionKey, 0;
    }

    /** The counter moves before the frame is opened, as the code has it. */
    method HandleIncomingPacket(frame: bytes) returns (ip: Option<bytes>)
      modifies this
      ensures ip == Delivered(suite, sessionKey, sessionId, old(receiveCounter), frame)
      ensures |frame| < MIN_FRAME_SIZE ==> receiveCounter == old(receiveCounter)
      ensures |frame| >= MIN_FRAME_SIZE ==>
                receiveCounter == NextCounter(old(receiveCounter), FrameNumber(frame))
    {
      SpanValues();
      if |frame| < MIN_FRAME_SIZE {
        return None;
      }
      var nonceCounter := FromLittleEndian(frame[..8]);
      if nonceCounter < receiveCounter {
        return None;
      }
      receiveCounter := (nonceCounter + 1) % 0x1_0000_0000_0000_0000;
      var cipher := new AeadCipher(suite, sessionKey, sessionId);
      var plaintext := cipher.Decrypt(frame[NONCE_SIZE..], [], nonceCounter);
      match plaintext
      case Success(p) => return Some(p);
      case Failure(_) => return None;
    }
  }

  lemma FrameCounter(suite: Suite, key: Block32, sessionId: u64, counter: u64, ip: bytes)
    ensures var f := Frame(suite, key, sessionId, counter, ip);
            && FrameNumber(f) == counter
            && f[NONCE_SIZE..] == suite.seal(key, NonceBytes(sessionId, counter), [], ip)
  {
    SpanValues();
    LittleEndianRoundTrip(8, counter);
    assert Frame(suite, key, sessionId, counter, ip)[..8] == LittleEndian(8, counter);
  }

  /** Which octets of a frame hold what: the counter, least significant first, the low
      half of the session id likewise, and what is sealed under those twelve. */
  lemma FrameLayout(suite: Suite, key: Block32, sessionId: u64, counter: u64, ip: bytes)
    ensures var f := Frame(suite, key, sessionId, counter, ip);
            && |f| == |ip| + 28
            && (forall k :: 0 <= k < 8 ==> f[k] == counter / Span(k) % 256)
            && (forall k :: 0 <= k < 4 ==> f[8 + k] == sessionId % 0x1_0000_0000 / Span(k) % 256)
            && f[12..] == suite.seal(key, f[..12], [], ip)
  {
    NonceOctets(sessionId, counter);
    var f, nonce := Frame(suite, key, sessionId, counter, ip), NonceBytes(sessionId, counter);
    assert f[..12] == nonce;
    assert forall k :: 0 <= k < 12 ==> f[k] == nonce[k];
  }

  /** A frame is recovered by any receiver whose counter has not passed it, and
      by no other. */
  lemma FrameIsRecovered(suite: Suite, key: Block32, sessionId: u64, receiveCounter: u64, counter: u64, ip: bytes)
    ensures Delivered(suite, key, sessionId, receiveCounter, Frame(suite, key, sessionId, counter, ip))
            == if receiveCounter <= counter then Some(ip) else None
  {
    FrameCounter(suite, key, sessionId, counter, ip);
  }

  /** The receive counter after the first k of the frames. */
  function CounterAfter(frames: seq<bytes>, k: nat): u64
    requires k <= |frames|
  {
    if k == 0 then 0
    else if |frames[k - 1]| < MIN_FRAME_SIZE then CounterAfter(frames, k - 1)
    else NextCounter(CounterAfter(frames, k - 1), FrameNumber(frames[k - 1]))
  }

  lemma {:induction false} InOrderCounter(fs: seq<bytes>, k: nat)
    requires k <= |fs| <= U64_MAX
    requires forall j :: 0 <= j < |fs| ==> |fs[j]| >= MIN_FRAME_SIZE && FrameNumber(fs[j]) == j
    ensures CounterAfter(fs, k) == k
  {
    if k > 0 {
      InOrderCounter(fs, k - 1);
    }
  }

  lemma {:induction false} CounterIsMaximumPlusOne(fs: seq<bytes>, k: nat)
    requires k <= |fs|
    requires forall j :: 0 <= j < k && |fs[j]| >= MIN_FRAME_SIZE ==> FrameNumber(fs[j]) != U64_MAX
    ensures forall j :: 0 <= j < k && |fs[j]| >= MIN_FRAME_SIZE ==> FrameNumber(fs[j]) < CounterAfter(fs, k)
    ensures CounterAfter(fs, k) == 0
            || exists j :: 0 <= j < k && |fs[j]| >= MIN_FRAME_SIZE && FrameNumber(fs[j]) + 1 == CounterAfter(fs, k)
  {
    if k > 0 {
      CounterIsMaximumPlusOne(fs, k - 1);
    }
  }

  /** Among any arrivals, garbage included, none of them numbered 2^64 - 1 before it, a
      frame yields its packet exactly if all well-sized ones before it number less. */
  lemma RecoveredExactly(suite: Suite, key: Block32, sessionId: u64, fs: seq<bytes>, i: nat, counter: u64, ip: bytes)
    requires i < |fs| && fs[i] == Frame(suite, key, sessionId, counter, ip)
    requires forall j :: 0 <= j < i && |fs[j]| >= MIN_FRAME_SIZE ==> FrameNumber(fs[j]) != U64_MAX
    ensures Delivered(suite, key, sessionId, CounterAfter(fs, i), fs[i])
            == if forall j :: 0 <= j < i && |fs[j]| >= MIN_FRAME_SIZE ==> FrameNumber(fs[j]) < counter
               then Some(ip) else None
  {
    CounterIsMaximumPlusOne(fs, i);
    FrameIsRecovered(suite, key, sessionId, CounterAfter(fs, i), counter, ip);
  }

  /** Delivered in order, every frame of a send task yields its packet. */
  lemma InOrderRunIsRecovered(suite: Suite, key: Block32, sessionId: u64, packets: seq<bytes>, k: nat)
    requires k < |FramesOf(suite, key, sessionId, packets)|
    ensures var fs := FramesOf(suite, key, sessionId, packets);
            Delivered(suite, key, sessionId, CounterAfter(fs, k), fs[k]) == Some(packets[k])
  {
    var fs := FramesOf(suite, key, sessionId, packets);
    forall j | 0 <= j < |fs| ensures FrameNumber(fs[j]) == j {
      FrameCounter(suite, key, sessionId, j, packets[j]);
    }
    InOrderCounter(fs, k);
    FrameIsRecovered(suite, key, sessionId, k, k, packets[k]);
  }

  /** The filter's counter after the first k arrivals. */
  function FilterAt(ns: seq<u64>, k: nat): u64
    requires k <= |ns|
  {
    if k == 0 then 0 else NextCounter(FilterAt(ns, k - 1), ns[k - 1])
  }

  predicate FilterPasses(ns: seq<u64>, i: nat)
    requires i < |ns|
  {
    ns[i] >= FilterAt(ns, i)
  }

  predicate StrictMaximum(ns: seq<nat>, i: nat)
    requires i < |ns|
  {
    forall j :: 0 <= j < i ==> ns[j] < ns[i]
  }

  lemma {:induction false} FilterIsMaximumPlusOne(ns: seq<u64>, k: nat)
    requires k <= |ns| && forall j :: 0 <= j < k ==> ns[j] != U64_MAX
    ensures forall j :: 0 <= j < k ==> ns[j] < FilterAt(ns, k)
    ensures FilterAt(ns, k) == 0 || exists j :: 0 <= j < k && ns[j] + 1 == FilterAt(ns, k)
  {
    if k > 0 {
      FilterIsMaximumPlusOne(ns, k - 1);
    }
  }

  lemma PassesIffStrictMaximum(ns: seq<u64>, i: nat)
    requires i < |ns| && forall j :: 0 <= j < i ==> ns[j] != U64_MAX
    ensures FilterPasses(ns, i) <==> StrictMaximum(ns, i)
  {
    FilterIsMaximumPlusOne(ns, i);
  }

  /** The filter passes exactly the strict running maxima (hence nothing twice) if
      and only if no number but the last is 2^64 - 1, after which it wraps to zero. */
  lemma FilterIsRunningMaxima(ns: seq<u64>)
    ensures (forall i :: 0 <= i < |ns| ==> (FilterPasses(ns, i) <==> StrictMaximum(ns, i)))
            <==> (forall i :: 0 <= i < |ns| - 1 ==> ns[i] != U64_MAX)
  {
    if forall i :: 0 <= i < |ns| - 1 ==> ns[i] != U64_MAX {
      forall i | 0 <= i < |ns| ensures FilterPasses(ns, i) <==> StrictMaximum(ns, i) {
        PassesIffStrictMaximum(ns, i);
      }
    } else {
      var i := FirstMaximal(ns);
      FilterIsMaximumPlusOne(ns, i);
      assert FilterAt(ns, i + 1) == 0;
      assert FilterPasses(ns, i + 1) && !StrictMaximum(ns, i + 1);
    }
  }

  lemma FirstMaximal(ns: seq<u64>) returns (i: nat)
    requires exists i :: 0 <= i < |ns| - 1 && ns[i] == U64_MAX
    ensures i < |ns| - 1 && ns[i] == U64_MAX && forall j :: 0 <= j < i ==> ns[j] != U64_MAX
  {
    i := 0;
    while ns[i] != U64_MAX
      invariant i < |ns| - 1 && forall j :: 0 <= j < i ==> ns[j] != U64_MAX
      decreases |ns| - i
    {
      i := i + 1;
    }
  }

  /** On 32-bit numbers whatever the filter passes the sliding window passes too. */
  lemma FilterWithinWindow(w: nat, ns: seq<u32>, i: nat)
    requires i < |ns| && w >= 1 && FilterPasses(ns, i)
    ensures Passes(w, ns, i)
  {
    PassesIffStrictMaximum(ns, i);
    AtIsSane(w, ns, i);
    if i > 0 {
      AcceptedArrived(w, ns, i, At(w, ns, i).highest);
    }
  }
}
