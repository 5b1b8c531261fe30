/** What the replay window decides over whole arrival streams. */
module ReplayStream {
  import opened ReplayWindow

  /** The window's history after the first k arrivals of ns. */
  function At(w: nat, ns: seq<nat>, k: nat): History
    requires k <= |ns|
  {
    if k == 0 then FRESH else At(w, ns, k - 1).Record(w, ns[k - 1])
  }

  predicate Passes(w: nat, ns: seq<nat>, i: nat)
    requires i < |ns|
  {
    At(w, ns, i).Accepts(ns[i])
  }

  ghost predicate Sane(h: History) {
    && (h.accepted == {} ==> h == FRESH)
    && (h.accepted != {} ==> h.highest in h.accepted && h.floor <= h.highest)
    && (forall n <- h.accepted :: n <= h.highest)
  }

  lemma {:induction false} AtIsSane(w: nat, ns: seq<nat>, k: nat)
    requires k <= |ns| && w >= 1
    ensures Sane(At(w, ns, k))
    ensures k > 0 ==> At(w, ns, k).accepted != {}
  {
    if k > 0 {
      AtIsSane(w, ns, k - 1);
    }
  }

  /** Over a run, what is accepted stays accepted and neither edge moves back. */
  lemma {:induction false} EdgesNeverMoveBack(w: nat, ns: seq<nat>, i: nat, j: nat)
    requires i <= j <= |ns| && w >= 1
    ensures At(w, ns, i).accepted <= At(w, ns, j).accepted
    ensures At(w, ns, i).highest <= At(w, ns, j).highest
    ensures At(w, ns, i).floor <= At(w, ns, j).floor
    decreases j
  {
    if i < j {
      EdgesNeverMoveBack(w, ns, i, j - 1);
      AtIsSane(w, ns, j - 1);
    }
  }

  /** A number that has arrived before is refused, whether its first arrival was
      accepted or refused: nothing passes twice and a refusal is final. */
  lemma {:induction false} OnlyFirstArrivalsPass(w: nat, ns: seq<nat>, i: nat, j: nat)
    requires i < j < |ns| && ns[i] == ns[j] && w >= 1
    ensures !Passes(w, ns, j)
  {
    AtIsSane(w, ns, i);
    AtIsSane(w, ns, i + 1);
    EdgesNeverMoveBack(w, ns, i + 1, j);
  }

  /** The window of section 3.4.3 of RFC 4303: everything within w of the right
      edge is remembered. The edge is -1 before the first packet. */
  datatype Textbook = Textbook(received: set<int>, edge: int) {
    predicate Accepts(w: nat, n: int) {
      n > edge || (n > edge - w && n !in received)
    }

    function Record(w: nat, n: int): Textbook {
      if !Accepts(w, n) then this
      else Textbook(received + {n}, if n > edge then n else edge)
    }
  }

  function TextbookAt(w: nat, ns: seq<nat>, k: nat): Textbook
    requires k <= |ns|
  {
    if k == 0 then Textbook({}, -1) else TextbookAt(w, ns, k - 1).Record(w, ns[k - 1])
  }

  predicate TextbookPasses(w: nat, ns: seq<nat>, i: nat)
    requires i < |ns|
  {
    TextbookAt(w, ns, i).Accepts(w, ns[i])
  }

  /** Run side by side, the two share the right edge and agree above the floor. */
  lemma {:induction false} SideBySide(w: nat, ns: seq<nat>, k: nat)
    requires k <= |ns| && w >= 1
    ensures var h, t := At(w, ns, k), TextbookAt(w, ns, k);
            k > 0 ==> && h.highest == t.edge
                      && h.highest - w < h.floor <= h.highest
                      && h.accepted <= t.received
                      && forall m <- t.received :: m <= t.edge && (h.floor <= m ==> m in h.accepted)
    ensures k == 0 ==> TextbookAt(w, ns, 0) == Textbook({}, -1)
  {
    if k > 0 {
      SideBySide(w, ns, k - 1);
      AtIsSane(w, ns, k - 1);
    }
  }

  /** The code is never more permissive than the textbook window, and refuses more
      exactly for unseen numbers inside the textbook window but below its floor. */
  lemma DifferenceFromTextbook(w: nat, ns: seq<nat>, i: nat)
    requires i < |ns| && w >= 1
    ensures Passes(w, ns, i) ==> TextbookPasses(w, ns, i)
    ensures var t := TextbookAt(w, ns, i);
            TextbookPasses(w, ns, i) && !Passes(w, ns, i)
            <==> i > 0 && t.edge - w < ns[i] < At(w, ns, i).floor && ns[i] !in t.received
  {
    SideBySide(w, ns, i);
    AtIsSane(w, ns, i);
  }

  /** Arrival i came first, or w or more ahead of all before it. */
  predicate Resets(w: nat, ns: seq<nat>, i: nat)
    requires i < |ns|
  {
    forall j :: 0 <= j < i ==> ns[i] - ns[j] >= w
  }

  /** The number at which the window was last cleared, among the first k arrivals. */
  function LastReset(w: nat, ns: seq<nat>, k: nat): nat
    requires 0 < k <= |ns|
  {
    if k == 1 || Resets(w, ns, k - 1) then ns[k - 1] else LastReset(w, ns, k - 1)
  }

  /** The right edge is the largest number that has arrived. */
  lemma HighestIsMaximum(w: nat, ns: seq<nat>, k: nat)
    requires 0 < k <= |ns| && w >= 1
    ensures var top := At(w, ns, k).highest;
            (forall j :: 0 <= j < k ==> ns[j] <= top) && exists j :: 0 <= j < k && ns[j] == top
  {
    forall j | 0 <= j < k ensures ns[j] <= At(w, ns, k).highest {
      HighestBoundsArrivals(w, ns, k, j);
    }
    AtIsSane(w, ns, k);
    AcceptedArrived(w, ns, k, At(w, ns, k).highest);
  }

  /** Over any stream the floor is the last reset, or w - 1 below the right edge. */
  lemma {:induction false} FloorExactly(w: nat, ns: seq<nat>, k: nat)
    requires 0 < k <= |ns| && w >= 1
    ensures var h, last := At(w, ns, k), LastReset(w, ns, k);
            h.floor == if h.highest - w + 1 > last then h.highest - w + 1 else last
  {
    AtIsSane(w, ns, k - 1);
    if k > 1 {
      FloorExactly(w, ns, k - 1);
      HighestIsMaximum(w, ns, k - 1);
    }
  }

  lemma {:induction false} ArrivedIsReceived(w: nat, ns: seq<nat>, k: nat, j: nat)
    requires j < k <= |ns| && w >= 1 && ns[j] > TextbookAt(w, ns, k).edge - w
    ensures ns[j] in TextbookAt(w, ns, k).received
  {
    if j < k - 1 {
      ArrivedIsReceived(w, ns, k - 1, j);
    }
  }

  lemma {:induction false} ReceivedArrived(w: nat, ns: seq<nat>, k: nat, m: int)
    requires k <= |ns| && m in TextbookAt(w, ns, k).received
    ensures exists j :: 0 <= j < k && ns[j] == m
  {
    if k > 0 && m in TextbookAt(w, ns, k - 1).received {
      ReceivedArrived(w, ns, k - 1, m);
    } else if k > 0 {
      assert ns[k - 1] == m;
    }
  }

  /** The number is new, and less than w below all that have arrived. */
  predicate NewAndRecent(w: nat, ns: seq<nat>, i: nat)
    requires i < |ns|
  {
    forall j :: 0 <= j < i ==> ns[j] != ns[i] && ns[j] - ns[i] < w
  }

  /** The textbook window takes exactly the new and recent numbers ... */
  lemma TextbookPassesExactly(w: nat, ns: seq<nat>, i: nat)
    requires i < |ns| && w >= 1
    ensures TextbookPasses(w, ns, i) <==> NewAndRecent(w, ns, i)
  {
    SideBySide(w, ns, i);
    if i > 0 {
      HighestIsMaximum(w, ns, i);
      var t := TextbookAt(w, ns, i);
      if ns[i] in t.received {
        ReceivedArrived(w, ns, i, ns[i]);
      }
      forall j | 0 <= j < i && ns[j] == ns[i] && ns[i] > t.edge - w ensures ns[i] in t.received {
        ArrivedIsReceived(w, ns, i, j);
      }
    }
  }

  /** ... and the code those of them that are not below its last reset. */
  lemma PassesExactly(w: nat, ns: seq<nat>, i: nat)
    requires i < |ns| && w >= 1
    ensures Passes(w, ns, i) <==> NewAndRecent(w, ns, i) && (i == 0 || ns[i] >= LastReset(w, ns, i))
  {
    DifferenceFromTextbook(w, ns, i);
    TextbookPassesExactly(w, ns, i);
    if i > 0 {
      FloorExactly(w, ns, i);
      SideBySide(w, ns, i);
      LastResetArrived(w, ns, i);
      HighestIsMaximum(w, ns, i);
    }
  }

  lemma {:induction false} LastResetArrived(w: nat, ns: seq<nat>, k: nat)
    requires 0 < k <= |ns|
    ensures exists j :: 0 <= j < k && ns[j] == LastReset(w, ns, k)
  {
    if k > 1 && !Resets(w, ns, k - 1) {
      LastResetArrived(w, ns, k - 1);
    } else {
      assert ns[k - 1] == LastReset(w, ns, k);
    }
  }

  /** The stream starts at 0 and no arrival is w or more ahead of all before it. */
  ghost predicate Gapless(w: nat, ns: seq<nat>) {
    && (ns != [] ==> ns[0] == 0)
    && forall i :: 0 < i < |ns| ==> exists j :: 0 <= j < i && ns[i] - ns[j] < w
  }

  lemma {:induction false} HighestBoundsArrivals(w: nat, ns: seq<nat>, k: nat, j: nat)
    requires j < k <= |ns| && w >= 1
    ensures ns[j] <= At(w, ns, k).highest
  {
    if j < k - 1 {
      HighestBoundsArrivals(w, ns, k - 1, j);
    }
    AtIsSane(w, ns, k - 1);
  }

  lemma {:induction false} GaplessNeverResets(w: nat, ns: seq<nat>, k: nat)
    requires 0 < k <= |ns| && Gapless(w, ns)
    ensures LastReset(w, ns, k) == 0
  {
    if k > 1 {
      GaplessNeverResets(w, ns, k - 1);
    }
  }

  lemma GaplessFloor(w: nat, ns: seq<nat>, k: nat)
    requires 0 < k <= |ns| && w >= 1 && Gapless(w, ns)
    ensures var h := At(w, ns, k); h.floor == if h.highest - w + 1 > 0 then h.highest - w + 1 else 0
  {
    FloorExactly(w, ns, k);
    GaplessNeverResets(w, ns, k);
  }

  /** On gapless streams the code and the textbook window decide alike. */
  lemma GaplessMatchesTextbook(w: nat, ns: seq<nat>, i: nat)
    requires i < |ns| && w >= 1 && Gapless(w, ns)
    ensures Passes(w, ns, i) <==> TextbookPasses(w, ns, i)
  {
    DifferenceFromTextbook(w, ns, i);
    if i > 0 {
      GaplessFloor(w, ns, i);
      SideBySide(w, ns, i);
    }
  }

  lemma {:induction false} AcceptedArrived(w: nat, ns: seq<nat>, k: nat, m: int)
    requires k <= |ns| && m in At(w, ns, k).accepted
    ensures exists j :: 0 <= j < k && ns[j] == m
  {
    if k > 0 && m in At(w, ns, k - 1).accepted {
      AcceptedArrived(w, ns, k - 1, m);
    } else if k > 0 {
      assert ns[k - 1] == m;
    }
  }

  /** Reordering that keeps forward jumps and lateness below w loses nothing. */
  lemma BoundedReorderingLosesNothing(w: nat, ns: seq<nat>, i: nat)
    requires i < |ns| && w >= 1 && Gapless(w, ns)
    requires forall j :: 0 <= j < i ==> ns[j] != ns[i] && ns[j] - ns[i] < w
    ensures Passes(w, ns, i)
  {
    if i > 0 {
      GaplessFloor(w, ns, i);
      AtIsSane(w, ns, i);
      var h := At(w, ns, i);
      AcceptedArrived(w, ns, i, h.highest);
      if ns[i] in h.accepted {
        AcceptedArrived(w, ns, i, ns[i]);
      }
    }
  }

  /** Both hypotheses of Gapless are needed: after a first packet 10, or after a
      jump of 300, unseen numbers the textbook window takes are refused. */
  lemma NarrowAfterLateStartOrJump()
    ensures TextbookPasses(256, [10, 5], 1) && !Passes(256, [10, 5], 1)
    ensures TextbookPasses(256, [0, 300, 299], 2) && !Passes(256, [0, 300, 299], 2)
  {
  }
}
