/** The anti-replay window of a session (crates/llp-core/src/session.rs), its
    history specification, and the textbook window it approximates. */
module ReplayWindow {
  import opened Bytes

  /** What a window of size w has seen. Nothing accepted yet iff `accepted` is
      empty. `floor` is the oldest number the deque still has a slot for. */
  datatype History = History(accepted: set<int>, highest: int, floor: int) {
    predicate Accepts(n: int) {
      accepted == {} || n > highest || (floor <= n && n !in accepted)
    }

    function Record(w: int, n: int): History {
      if !Accepts(n) then this
      else if accepted == {} then History({n}, n, n)
      else if n <= highest then this.(accepted := accepted + {n})
      else if n - highest >= w then History(accepted + {n}, n, n)
      else History(accepted + {n}, n, if n - w + 1 > floor then n - w + 1 else floor)
    }
  }

  const FRESH := History({}, 0, 0)

  /** Slot i of the deque stands for the number base + i. */
  ghost predicate Slots(window: seq<bool>, base: int, accepted: set<int>) {
    forall i :: 0 <= i < |window| ==> (window[i] <==> base + i in accepted)
  }

  /** The last k elements of s, or all of s when it is shorter. */
  function Last<T>(s: seq<T>, k: nat): seq<T> {
    if |s| <= k then s else s[|s| - k..]
  }

  function Falses(n: nat): (s: seq<bool>)
    ensures |s| == n
  {
    seq(n, _ => false)
  }

  /** Advance the deque past `skipped` missing numbers to an arrived one. */
  method Slide(window: seq<bool>, skipped: nat, size: nat) returns (slots: seq<bool>)
    requires |window| <= size
    ensures slots == Last(window + Falses(skipped) + [true], size)
  {
    slots := window;
    for i := 0 to skipped
      invariant slots == Last(window + Falses(i), size)
    {
      slots := slots + [false];
      assert window + Falses(i + 1) == window + Falses(i) + [false];
      if |slots| > size {
        slots := slots[1..];
      }
    }
    slots := slots + [true];
    if |slots| > size {
      slots := slots[1..];
    }
  }

  /** The deque and its top number stand for the history h. */
  ghost predicate Tracks(window: seq<bool>, highestSeq: int, size: nat, h: History) {
    && size >= 1
    && (window == [] <==> h.accepted == {})
    && (window == [] ==> h == FRESH)
    && (window != [] ==>
          && h.highest == highestSeq
          && h.floor == highestSeq - |window| + 1
          && |window| <= size
          && 0 <= h.floor
          && highestSeq in h.accepted
          && (forall n <- h.accepted :: n <= highestSeq)
          && Slots(window, h.floor, h.accepted))
  }

  lemma JumpTracks(window: seq<bool>, highestSeq: int, size: nat, h: History, n: nat)
    requires Tracks(window, highestSeq, size, h)
    requires window != [] ==> n - highestSeq >= size
    ensures Tracks([true], n, size, h.Record(size, n))
  {
  }

  lemma SlideTracks(window: seq<bool>, highestSeq: int, size: nat, h: History, n: nat)
    requires Tracks(window, highestSeq, size, h) && window != []
    requires 0 < n - highestSeq < size
    ensures Tracks(Last(window + Falses(n - highestSeq - 1) + [true], size), n, size, h.Record(size, n))
  {
  }

  lemma FillTracks(window: seq<bool>, highestSeq: int, size: nat, h: History, n: nat)
    requires Tracks(window, highestSeq, size, h) && window != []
    requires h.floor <= n <= highestSeq
    ensures h.Accepts(n) <==> !window[n - h.floor]
    ensures h.Accepts(n) ==> Tracks(window[n - h.floor := true], highestSeq, size, h.Record(size, n))
  {
  }

  /** The deque-of-booleans implementation. */
  class ReplayWindow {
    var highestSeq: u32
    var window: seq<bool>
    const windowSize: nat
    ghost var history: History

    ghost predicate Valid()
      reads this
    {
      Tracks(window, highestSeq, windowSize, history)
    }

    constructor (windowSize: nat)
      requires windowSize >= 1
      ensures Valid() && history == FRESH && this.windowSize == windowSize
    {
      this.windowSize := windowSize;
      highestSeq, window, history := 0, [], FRESH;
    }

    method CheckAndUpdate(n: u32) returns (ok: bool)
      requires Valid()
      modifies this
      ensures Valid()
      ensures ok == old(history).Accepts(n)
      ensures history == old(history).Record(windowSize, n)
    {
      ghost var h := history;
      history := h.Record(windowSize, n);
      if window == [] {
        JumpTracks(window, highestSeq, windowSize, h, n);
        highestSeq := n;
        window := window + [true];
        return true;
      }
      if n > highestSeq {
        var diff := n - highestSeq;
        if diff >= windowSize {
          JumpTracks(window, highestSeq, windowSize, h, n);
          window := [true];
        } else {
          SlideTracks(window, highestSeq, windowSize, h, n);
          window := Slide(window, diff - 1, windowSize);
        }
        highestSeq := n;
        return true;
      }
      var diff := highestSeq - n;
      if diff >= |window| {
        return false;
      }
      var index := |window| - 1 - diff;
      FillTracks(window, highestSeq, windowSize, h, n);
      if window[index] {
        return false;
      }
      window := window[index := true];
      return true;
    }
  }
}
