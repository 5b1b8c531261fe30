/** A sending and a receiving session of one direction, over an arbitrary network. */
module Channel {
  import opened Bytes
  import opened Wrappers
  import opened Primitives
  import opened Crypto
  import opened ReplayStream
  import S = Session
  import opened ReplayWindow

  datatype Request = Request(plaintext: bytes, aad: bytes)
  datatype Packet = Packet(ciphertext: bytes, aad: bytes, number: u32)

  /** The packets a fresh session makes of a list of requests. */
  function Sent(suite: Suite, key: Block32, sessionId: u64, reqs: seq<Request>): seq<Packet> {
    seq(if |reqs| < U32_MAX then |reqs| else U32_MAX, i requires 0 <= i < |reqs| && i < U32_MAX =>
      Packet(suite.seal(key, NonceBytes(sessionId, i), reqs[i].aad, reqs[i].plaintext), reqs[i].aad, i))
  }

  /** No two packets of a session are sealed under the same nonce. */
  lemma SentNoncesAreDistinct(suite: Suite, key: Block32, sessionId: u64, reqs: seq<Request>, i: nat, j: nat)
    requires i < j < |Sent(suite, key, sessionId, reqs)|
    ensures |Sent(suite, key, sessionId, reqs)| == if |reqs| < 0xFFFF_FFFF then |reqs| else 0xFFFF_FFFF
    ensures var sent := Sent(suite, key, sessionId, reqs);
            NonceBytes(sessionId, sent[i].number) != NonceBytes(sessionId, sent[j].number)
  {
    if NonceBytes(sessionId, i) == NonceBytes(sessionId, j) {
      NonceIsInjective(sessionId, i, sessionId, j);
    }
  }

  method SendAll(s: S.Session, reqs: seq<Request>) returns (packets: seq<Packet>)
    requires s.Sends() && s.calls == 0
    modifies s, s.txCipher
    ensures packets == Sent(s.suite, s.sessionKey, s.sessionId, reqs)
  {
    packets := [];
    for i := 0 to |reqs|
      invariant s.Sends() && s.calls == i
      invariant packets == Sent(s.suite, s.sessionKey, s.sessionId, reqs[..i])
    {
      var r := s.EncryptPayload(reqs[i].plaintext, reqs[i].aad);
      if r.Success? {
        packets := packets + [Packet(r.value.0, reqs[i].aad, r.value.1)];
      }
    }
    assert reqs[..|reqs|] == reqs;
  }

  function Numbers(ds: seq<Packet>): (ns: seq<nat>)
    ensures |ns| == |ds|
  {
    seq(|ds|, i requires 0 <= i < |ds| => ds[i].number)
  }

  /** What a fresh session answers to the i-th of the packets delivered to it. */
  function Answer(suite: Suite, key: Block32, sessionId: u64, ds: seq<Packet>, i: nat): Result<bytes, S.SessionError>
    requires i < |ds|
  {
    var h := At(S.REPLAY_WINDOW_SIZE, Numbers(ds), i);
    S.Verdict(suite, key, sessionId, h, ds[i].ciphertext, ds[i].aad, ds[i].number)
  }

  method ReceiveAll(s: S.Session, ds: seq<Packet>) returns (answers: seq<Result<bytes, S.SessionError>>)
    requires s.Receives() && s.Received() == FRESH
    modifies s.rxReplayWindow
    ensures |answers| == |ds|
    ensures forall i :: 0 <= i < |ds| ==> answers[i] == Answer(s.suite, s.sessionKey, s.sessionId, ds, i)
  {
    answers := [];
    for i := 0 to |ds|
      invariant s.Receives() && s.Received() == At(S.REPLAY_WINDOW_SIZE, Numbers(ds), i)
      invariant |answers| == i
      invariant forall j :: 0 <= j < i ==> answers[j] == Answer(s.suite, s.sessionKey, s.sessionId, ds, j)
    {
      var r := s.DecryptPayload(ds[i].ciphertext, ds[i].aad, ds[i].number);
      answers := answers + [r];
    }
  }

  /** No forgery happened: whatever opens is something the sender sealed, under
      that very nonce and additional data. */
  ghost predicate Unforged(suite: Suite, key: Block32, sessionId: u64, sent: seq<Packet>, d: Packet) {
    suite.open(key, NonceBytes(sessionId, d.number), d.aad, d.ciphertext).Some? ==>
      exists p <- sent :: p.ciphertext == d.ciphertext && p.aad == d.aad
                          && NonceBytes(sessionId, p.number) == NonceBytes(sessionId, d.number)
  }

  /** Over any network, every output at number n is the plaintext the sender sealed
      as its n-th request, with the additional data it gave. */
  lemma OutputsAreAuthentic(suite: Suite, key: Block32, sessionId: u64, reqs: seq<Request>, ds: seq<Packet>, i: nat)
    requires i < |ds|
    requires Unforged(suite, key, sessionId, Sent(suite, key, sessionId, reqs), ds[i])
    ensures var a := Answer(suite, key, sessionId, ds, i);
            a.Success? ==>
              && ds[i].number < |reqs| && ds[i].number < U32_MAX
              && Request(a.value, ds[i].aad) == reqs[ds[i].number]
  {
    if Answer(suite, key, sessionId, ds, i).Success? {
      var sent := Sent(suite, key, sessionId, reqs);
      var p :| p in sent && p.ciphertext == ds[i].ciphertext && p.aad == ds[i].aad
               && NonceBytes(sessionId, p.number) == NonceBytes(sessionId, ds[i].number);
      NonceIsInjective(sessionId, p.number, sessionId, ds[i].number);
    }
  }

  /** A number that has arrived before is answered as a duplicate, also when its
      first packet failed to open: at most one output per number. */
  lemma RepeatsAreDuplicates(suite: Suite, key: Block32, sessionId: u64, ds: seq<Packet>, i: nat, j: nat)
    requires i < j < |ds| && ds[i].number == ds[j].number
    ensures Answer(suite, key, sessionId, ds, j) == Failure(S.DuplicateSequenceNumber(ds[j].number))
  {
    OnlyFirstArrivalsPass(S.REPLAY_WINDOW_SIZE, Numbers(ds), i, j);
  }

  /** What any delivered packet is answered, told from the arrivals and its octets. */
  lemma AnswersExactly(suite: Suite, key: Block32, sessionId: u64, ds: seq<Packet>, i: nat)
    requires i < |ds|
    ensures var ns, a := Numbers(ds), Answer(suite, key, sessionId, ds, i);
            if NewAndRecent(256, ns, i) && (i == 0 || ns[i] >= LastReset(256, ns, i)) then
              match suite.open(key, NonceBytes(sessionId, ns[i]), ds[i].aad, ds[i].ciphertext)
              case Some(p) => a == Success(p)
              case None => a == Failure(S.CryptoFailure(DecryptionError))
            else a == Failure(S.DuplicateSequenceNumber(ds[i].number))
  {
    PassesExactly(256, Numbers(ds), i);
  }

  /** Whatever else arrives, a sent packet yields its plaintext exactly if its number is
      new, less than the window size behind, and not below the window's last reset. */
  lemma DeliversExactly(suite: Suite, key: Block32, sessionId: u64, reqs: seq<Request>, ds: seq<Packet>, i: nat)
    requires i < |ds| && ds[i] in Sent(suite, key, sessionId, reqs)
    ensures ds[i].number < |reqs|
    ensures Answer(suite, key, sessionId, ds, i) == Success(reqs[ds[i].number].plaintext)
            <==> NewAndRecent(256, Numbers(ds), i) && (i == 0 || ds[i].number >= LastReset(256, Numbers(ds), i))
  {
    PassesExactly(S.REPLAY_WINDOW_SIZE, Numbers(ds), i);
  }

  /** On a stream from number 0 without forward jumps of the window size, a sent packet
      that is new and less than the window size late yields its plaintext. */
  lemma BoundedReorderingDelivers(suite: Suite, key: Block32, sessionId: u64, reqs: seq<Request>, ds: seq<Packet>,
                                  i: nat)
    requires i < |ds| && ds[i] in Sent(suite, key, sessionId, reqs)
    requires Gapless(S.REPLAY_WINDOW_SIZE, Numbers(ds))
    requires forall j :: 0 <= j < i ==>
               ds[j].number != ds[i].number && ds[j].number - ds[i].number < S.REPLAY_WINDOW_SIZE
    ensures ds[i].number < |reqs|
    ensures Answer(suite, key, sessionId, ds, i) == Success(reqs[ds[i].number].plaintext)
  {
    BoundedReorderingLosesNothing(S.REPLAY_WINDOW_SIZE, Numbers(ds), i);
  }

  /** Among these nonces and additional data, a ciphertext opens only under those it
      was sealed under. (A tag of 16 octets cannot bind all additional data there are.) */
  ghost predicate Binding(suite: Suite, key: Block32, used: set<(Block12, bytes)>) {
    forall a <- used, b <- used, p :: suite.open(key, a.0, a.1, suite.seal(key, b.0, b.1, p)).Some? ==> a == b
  }

  /** Where x is first in labels, or their number if it is not there. */
  function IndexIn(x: (Block12, bytes), labels: seq<(Block12, bytes)>): (n: nat)
    ensures n <= |labels| && (n < |labels| ==> labels[n] == x) && (x in labels ==> n < |labels|)
  {
    if labels == [] || labels[0] == x then 0 else 1 + IndexIn(x, labels[1..])
  }

  function NumberSeal(labels: seq<(Block12, bytes)>, x: (Block12, bytes), p: bytes): (c: bytes)
    ensures |c| == |p| + AEAD_TAG_SIZE
  {
    p + BigEndian(AEAD_TAG_SIZE, IndexIn(x, labels))
  }

  function NumberOpen(labels: seq<(Block12, bytes)>, x: (Block12, bytes), c: bytes): (p: Option<bytes>)
    ensures p.Some? ==> |c| == |p.value| + AEAD_TAG_SIZE
    ensures forall q :: c == NumberSeal(labels, x, q) ==> p == Some(q)
  {
    if |c| < AEAD_TAG_SIZE || c[|c| - AEAD_TAG_SIZE..] != BigEndian(AEAD_TAG_SIZE, IndexIn(x, labels)) then None
    else Some(c[..|c| - AEAD_TAG_SIZE])
  }

  /** A suite whose tag is the label's place in a list: as little secrecy as none. */
  ghost function NumberingSuite(labels: seq<(Block12, bytes)>): Suite {
    NullSuite().(
      seal := (k: Block32, n: Block12, aad: bytes, p: bytes) => NumberSeal(labels, (n, aad), p),
      open := (k: Block32, n: Block12, aad: bytes, c: bytes) => NumberOpen(labels, (n, aad), c))
  }

  /** Binding can be had for as many labels as tags can number. */
  lemma BindingIsConsistent(key: Block32, labels: seq<(Block12, bytes)>)
    requires |labels| < Span(AEAD_TAG_SIZE)
    ensures Binding(NumberingSuite(labels), key, set l | l in labels)
  {
    forall a, b, p | a in labels && b in labels && NumberOpen(labels, a, NumberSeal(labels, b, p)).Some?
      ensures a == b
    {
      var sealed := NumberSeal(labels, b, p);
      assert sealed[|sealed| - AEAD_TAG_SIZE..] == BigEndian(AEAD_TAG_SIZE, IndexIn(b, labels));
      BigEndianRoundTrip(AEAD_TAG_SIZE, IndexIn(a, labels));
      BigEndianRoundTrip(AEAD_TAG_SIZE, IndexIn(b, labels));
    }
  }

  function Label(sessionId: u64, p: Packet): (Block12, bytes) {
    (NonceBytes(sessionId, p.number), p.aad)
  }

  /** Where the primitive binds, recombining sent ciphertexts with other numbers and
      additional data is no forgery ... */
  lemma RecombinedIsUnforged(suite: Suite, key: Block32, sessionId: u64, reqs: seq<Request>,
                             used: set<(Block12, bytes)>, d: Packet)
    requires Binding(suite, key, used) && Label(sessionId, d) in used
    requires forall p <- Sent(suite, key, sessionId, reqs) :: Label(sessionId, p) in used
    requires exists p <- Sent(suite, key, sessionId, reqs) :: p.ciphertext == d.ciphertext
    ensures Unforged(suite, key, sessionId, Sent(suite, key, sessionId, reqs), d)
  {
    var sent := Sent(suite, key, sessionId, reqs);
    var i :| 0 <= i < |sent| && sent[i].ciphertext == d.ciphertext;
    assert Label(sessionId, sent[i]) in used;
    assert sent[i].ciphertext == suite.seal(key, NonceBytes(sessionId, i), reqs[i].aad, reqs[i].plaintext);
  }

  /** ... so that outputs stay authentic whatever the recombination. */
  lemma RecombinedOutputsAreAuthentic(suite: Suite, key: Block32, sessionId: u64, reqs: seq<Request>,
                                      used: set<(Block12, bytes)>, ds: seq<Packet>, i: nat)
    requires i < |ds| && Binding(suite, key, used) && Label(sessionId, ds[i]) in used
    requires forall p <- Sent(suite, key, sessionId, reqs) :: Label(sessionId, p) in used
    requires exists p <- Sent(suite, key, sessionId, reqs) :: p.ciphertext == ds[i].ciphertext
    ensures var a := Answer(suite, key, sessionId, ds, i);
            a.Success? ==>
              && ds[i].number < |reqs| && ds[i].number < U32_MAX
              && Request(a.value, ds[i].aad) == reqs[ds[i].number]
  {
    RecombinedIsUnforged(suite, key, sessionId, reqs, used, ds[i]);
    OutputsAreAuthentic(suite, key, sessionId, reqs, ds, i);
  }

  /** The two directions of a session share key and nonces: what a session sealed, its
      own receiving half takes too. The properties above are about one direction. */
  lemma DirectionsAreNotSeparated(suite: Suite, key: Block32, sessionId: u64, reqs: seq<Request>, i: nat)
    requires i < |Sent(suite, key, sessionId, reqs)|
    ensures Answer(suite, key, sessionId, [Sent(suite, key, sessionId, reqs)[i]], 0) == Success(reqs[i].plaintext)
  {
  }
}
