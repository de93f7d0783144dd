/** The measuring tamperer of proxy/internals/internaltest/latency.go. */
module Latency {
  import opened Common

  datatype Kind = Request | Response | WSIncoming | WSOutgoing
  datatype Sample = Sample(kind: Kind, at: int, bytes: nat)

  // ------------------------------------------------------------------------------- matching

  /** The pairing that Pairs is after: disjoint stretches from an enter to an exit, in order. */
  datatype Pair = Pair(enter: nat, exit: nat)
  type Pairing = seq<Pair>

  predicate Matches(samples: seq<Sample>, enter: Kind, exit: Kind, pair: Pair) {
    pair.enter < pair.exit < |samples| && samples[pair.enter].kind == enter && samples[pair.exit].kind == exit
  }

  predicate InOrder(p: Pairing) { forall k :: 0 < k < |p| ==> p[k - 1].exit < p[k].enter }

  predicate Pairs(samples: seq<Sample>, enter: Kind, exit: Kind, p: Pairing) {
    (forall k :: 0 <= k < |p| ==> Matches(samples, enter, exit, p[k])) && InOrder(p)
  }

  predicate StartsAt(p: Pairing, i: nat) { p != [] ==> i <= p[0].enter }

  /** The first exit at j or later, or |samples|. */
  function NextExit(samples: seq<Sample>, exit: Kind, j: nat): (r: nat)
    requires j <= |samples|
    ensures j <= r <= |samples| && (r < |samples| ==> samples[r].kind == exit)
    decreases |samples| - j
  {
    if j == |samples| || samples[j].kind == exit then j else NextExit(samples, exit, j + 1)
  }

  lemma {:induction false} NoExitBefore(samples: seq<Sample>, exit: Kind, j: nat, k: nat)
    requires j <= k < |samples| && samples[k].kind == exit
    ensures NextExit(samples, exit, j) <= k
    decreases k - j
  {
    if j < k { NoExitBefore(samples, exit, j + 1, k); }
  }

  /** The greedy pairing of samples i and later: each enter with the next exit. */
  function Greedy(samples: seq<Sample>, enter: Kind, exit: Kind, i: nat): Pairing
    requires i <= |samples|
    decreases |samples| - i
  {
    if i == |samples| then []
    else if samples[i].kind != enter then Greedy(samples, enter, exit, i + 1)
    else
      var j := NextExit(samples, exit, i + 1);
      if j == |samples| then Greedy(samples, enter, exit, i + 1)
      else [Pair(i, j)] + Greedy(samples, enter, exit, j + 1)
  }

  /** One turn of the outer loop. */
  lemma GreedyUnfolds(samples: seq<Sample>, enter: Kind, exit: Kind, i: nat)
    requires i < |samples|
    ensures var j := if samples[i].kind == enter then NextExit(samples, exit, i + 1) else |samples|;
            Greedy(samples, enter, exit, i)
            == if j == |samples| then Greedy(samples, enter, exit, i + 1)
               else [Pair(i, j)] + Greedy(samples, enter, exit, j + 1)
  {}

  lemma {:induction false} GreedyIsAPairing(samples: seq<Sample>, enter: Kind, exit: Kind, i: nat)
    requires i <= |samples|
    ensures Pairs(samples, enter, exit, Greedy(samples, enter, exit, i))
    ensures StartsAt(Greedy(samples, enter, exit, i), i)
    ensures 2 * |Greedy(samples, enter, exit, i)| <= |samples| - i
    decreases |samples| - i
  {
    if i == |samples| {
      assert Greedy(samples, enter, exit, i) == [];
    } else {
      hide Greedy, NextExit, Pairs, Matches;
      GreedyUnfolds(samples, enter, exit, i);
      var j := if samples[i].kind == enter then NextExit(samples, exit, i + 1) else |samples|;
      if j == |samples| {
        GreedyIsAPairing(samples, enter, exit, i + 1);
      } else {
        GreedyIsAPairing(samples, enter, exit, j + 1);
        PairAhead(samples, enter, exit, Pair(i, j), Greedy(samples, enter, exit, j + 1));
      }
    }
  }

  lemma PairAhead(samples: seq<Sample>, enter: Kind, exit: Kind, pair: Pair, p: Pairing)
    requires pair.enter < pair.exit < |samples|
    requires samples[pair.enter].kind == enter && samples[pair.exit].kind == exit
    requires Pairs(samples, enter, exit, p) && StartsAt(p, pair.exit + 1)
    ensures Pairs(samples, enter, exit, [pair] + p)
  {
    Prepend(pair, p);
    hide InOrder;
  }

  lemma Prepend(pair: Pair, p: Pairing)
    requires InOrder(p) && StartsAt(p, pair.exit + 1)
    ensures InOrder([pair] + p)
  {}

  lemma Tail(p: Pairing)
    requires InOrder(p) && p != []
    ensures InOrder(p[1..]) && StartsAt(p[1..], p[0].exit + 1)
  {}

  /** No pairing of samples i and later has more pairs. */
  lemma {:induction false} GreedyIsLargest(samples: seq<Sample>, enter: Kind, exit: Kind, i: nat, p: Pairing)
    requires i <= |samples| && Pairs(samples, enter, exit, p) && StartsAt(p, i)
    ensures |p| <= |Greedy(samples, enter, exit, i)|
    decreases |samples| - i
  {
    if p == [] {
    } else {
      assert i <= p[0].enter < p[0].exit < |samples|;
      var j := if samples[i].kind == enter then NextExit(samples, exit, i + 1) else |samples|;
      if samples[i].kind != enter {
        GreedyIsLargest(samples, enter, exit, i + 1, p);
      } else {
        NoExitBefore(samples, exit, i + 1, p[0].exit);
        var rest := p[1..];
        Tail(p);
        GreedyIsLargest(samples, enter, exit, j + 1, rest);
      }
    }
  }

  // ---------------------------------------------------------------------------- round trips

  predicate Increasing(a: seq<nat>) { forall i, j :: 0 <= i < j < |a| ==> a[i] < a[j] }

  predicate Within(a: seq<nat>, b: seq<nat>) { forall i :: 0 <= i < |a| ==> a[i] in b }

  lemma Ordered(a: seq<nat>, i: nat, j: nat)
    requires Increasing(a) && i < |a| && j < |a|
    ensures a[i] < a[j] <==> i < j
  {}

  lemma {:induction false} PlaceWithin(a: seq<nat>, b: seq<nat>, k: nat) returns (m: nat)
    requires Increasing(a) && Increasing(b) && Within(a, b) && k < |a|
    ensures k <= m < |b| && b[m] == a[k]
  {
    assert a[k] in b;
    m :| m < |b| && b[m] == a[k];
    if k == 0 {
    } else {
      var n := PlaceWithin(a, b, k - 1);
      assert a[k - 1] < a[k];
      Ordered(b, n, m);
    }
  }

  lemma {:induction false} SamePlace(a: seq<nat>, b: seq<nat>, k: nat)
    requires Increasing(a) && Increasing(b) && Within(a, b) && |a| == |b| && k < |a|
    ensures a[k] == b[k]
    decreases |a| - k
  {
    var m := PlaceWithin(a, b, k);
    if k < |a| - 1 {
      SamePlace(a, b, k + 1);
      Ordered(b, m, k + 1);
    }
  }

  function Enters(p: Pairing): seq<nat> { seq(|p|, k requires 0 <= k < |p| => p[k].enter) }

  /** Round trips in the order in which they start: every enter sample starts one of them, and every
      exit sample ends one. */
  predicate RoundTrips(samples: seq<Sample>, enter: Kind, exit: Kind, trips: Pairing) {
    && (forall k :: 0 <= k < |trips| ==> Matches(samples, enter, exit, trips[k]))
    && Increasing(Enters(trips))
    && (forall i :: 0 <= i < |samples| && samples[i].kind == enter ==> i in Enters(trips))
    && (forall i :: 0 <= i < |samples| && samples[i].kind == exit ==>
          exists k :: 0 <= k < |trips| && trips[k].exit == i)
  }

  lemma {:induction false} OrderedEnters(samples: seq<Sample>, enter: Kind, exit: Kind, p: Pairing, i: nat, j: nat)
    requires Pairs(samples, enter, exit, p) && i < j < |p|
    ensures p[i].exit < p[j].enter && p[i].enter < p[j].enter
    decreases j
  {
    if i < j - 1 { OrderedEnters(samples, enter, exit, p, i, j - 1); }
    assert Matches(samples, enter, exit, p[i]) && Matches(samples, enter, exit, p[j - 1]) && p[j - 1].exit < p[j].enter;
  }

  lemma PairsWithinTrips(samples: seq<Sample>, enter: Kind, exit: Kind, trips: Pairing, p: Pairing)
    requires RoundTrips(samples, enter, exit, trips) && Pairs(samples, enter, exit, p)
    ensures Increasing(Enters(p)) && Within(Enters(p), Enters(trips)) && |p| <= |trips|
  {
    forall i, j | 0 <= i < j < |p| ensures p[i].enter < p[j].enter { OrderedEnters(samples, enter, exit, p, i, j); }
    forall i | 0 <= i < |p| ensures Enters(p)[i] in Enters(trips) { assert Matches(samples, enter, exit, p[i]); }
    if p != [] { var m := PlaceWithin(Enters(p), Enters(trips), |p| - 1); }
  }

  lemma EarlierTripEndsBefore(samples: seq<Sample>, enter: Kind, exit: Kind, trips: Pairing, p: Pairing, m: nat, k: nat)
    requires Pairs(samples, enter, exit, p) && m < k < |p| && m < |trips| && p[m] == trips[m]
    ensures trips[m].exit < p[k].exit
  {
    OrderedEnters(samples, enter, exit, p, m, k);
    assert Matches(samples, enter, exit, p[k]);
  }

  lemma LaterTripEndsAfter(samples: seq<Sample>, enter: Kind, exit: Kind, trips: Pairing, p: Pairing, m: nat, k: nat)
    requires RoundTrips(samples, enter, exit, trips) && Pairs(samples, enter, exit, p) && |p| == |trips| && k < m < |p|
    ensures p[k].exit < trips[m].exit
  {
    SameEnter(samples, enter, exit, trips, p, m);
    OrderedEnters(samples, enter, exit, p, k, m);
    assert Matches(samples, enter, exit, trips[m]);
  }

  lemma SameEnter(samples: seq<Sample>, enter: Kind, exit: Kind, trips: Pairing, p: Pairing, k: nat)
    requires RoundTrips(samples, enter, exit, trips) && Pairs(samples, enter, exit, p) && |p| == |trips| && k < |p|
    ensures p[k].enter == trips[k].enter
  {
    PairsWithinTrips(samples, enter, exit, trips, p);
    SamePlace(Enters(p), Enters(trips), k);
    hide RoundTrips, Pairs, Increasing, Within;
    assert p[k].enter == Enters(p)[k] && Enters(trips)[k] == trips[k].enter;
  }

  lemma TripThatEnds(samples: seq<Sample>, enter: Kind, exit: Kind, trips: Pairing, p: Pairing, k: nat) returns (m: nat)
    requires RoundTrips(samples, enter, exit, trips) && Pairs(samples, enter, exit, p) && k < |p|
    ensures m < |trips| && trips[m].exit == p[k].exit
  {
    hide Increasing, Within, InOrder, Enters;
    assert Matches(samples, enter, exit, p[k]);
    m :| m < |trips| && trips[m].exit == p[k].exit;
  }

  /** The trip that ends where pair k does is trip k. */
  lemma TripEndsHere(samples: seq<Sample>, enter: Kind, exit: Kind, trips: Pairing, p: Pairing, k: nat)
    requires RoundTrips(samples, enter, exit, trips) && Pairs(samples, enter, exit, p) && |p| == |trips| && k < |p|
    requires forall m :: 0 <= m < k ==> p[m] == trips[m]
    ensures p[k] == trips[k]
  {
    hide RoundTrips, Pairs;
    SameEnter(samples, enter, exit, trips, p, k);
    var m := TripThatEnds(samples, enter, exit, trips, p, k);
    if m < k {
      EarlierTripEndsBefore(samples, enter, exit, trips, p, m, k);
    } else if m > k {
      LaterTripEndsAfter(samples, enter, exit, trips, p, m, k);
    }
  }

  /** A pairing as long as the list of trips is that list. */
  lemma {:induction false} LongPairingIsTheTrips(samples: seq<Sample>, enter: Kind, exit: Kind, trips: Pairing,
    p: Pairing, k: nat)
    requires RoundTrips(samples, enter, exit, trips) && Pairs(samples, enter, exit, p) && |p| == |trips| && k <= |p|
    ensures forall m :: 0 <= m < k ==> p[m] == trips[m]
  {
    hide RoundTrips, Pairs;
    if k == 0 {
    } else {
      LongPairingIsTheTrips(samples, enter, exit, trips, p, k - 1);
      TripEndsHere(samples, enter, exit, trips, p, k - 1);
    }
  }

  /** Pairs counts all round trips exactly when no two of them overlap; then it counts them as they
      are.  Of trips that overlap it loses some. */
  lemma AllTripsAreCountedIff(samples: seq<Sample>, enter: Kind, exit: Kind, trips: Pairing)
    requires RoundTrips(samples, enter, exit, trips)
    ensures |Greedy(samples, enter, exit, 0)| == |trips| <==> InOrder(trips)
    ensures InOrder(trips) ==> Greedy(samples, enter, exit, 0) == trips
    ensures !InOrder(trips) ==> |Greedy(samples, enter, exit, 0)| < |trips|
  {
    var g := Greedy(samples, enter, exit, 0);
    GreedyIsAPairing(samples, enter, exit, 0);
    PairsWithinTrips(samples, enter, exit, trips, g);
    if InOrder(trips) {
      GreedyIsLargest(samples, enter, exit, 0, trips);
    }
    if |g| == |trips| {
      LongPairingIsTheTrips(samples, enter, exit, trips, g, |g|);
      assert g == trips;
    }
  }

  // ------------------------------------------------------------------- requests without an answer

  /** Every exit from i on ends one of the trips; an enter need not start one. */
  predicate ExitsEnd(samples: seq<Sample>, exit: Kind, i: nat, trips: Pairing) {
    forall j :: i <= j < |samples| && samples[j].kind == exit ==> exists k :: 0 <= k < |trips| && trips[k].exit == j
  }

  /** An enter at u does not come in the way: a trip starts there or is under way, or all have ended. */
  predicate OutOfTheWay(trips: Pairing, u: nat) {
    || (exists k :: 0 <= k < |trips| && trips[k].enter <= u < trips[k].exit)
    || (forall k :: 0 <= k < |trips| ==> trips[k].exit < u)
  }

  predicate NoneInTheWay(samples: seq<Sample>, enter: Kind, i: nat, trips: Pairing) {
    forall u :: i <= u < |samples| && samples[u].kind == enter ==> OutOfTheWay(trips, u)
  }

  lemma NothingToFind(samples: seq<Sample>, enter: Kind, exit: Kind, i: nat)
    requires i <= |samples| && ExitsEnd(samples, exit, i, [])
    ensures Greedy(samples, enter, exit, i) == []
  {
    var g := Greedy(samples, enter, exit, i);
    GreedyIsAPairing(samples, enter, exit, i);
    assert g != [] ==> Matches(samples, enter, exit, g[0]);
  }

  lemma InTheWayOfTheFirst(samples: seq<Sample>, enter: Kind, exit: Kind, trips: Pairing, u: nat)
    requires Pairs(samples, enter, exit, trips) && trips != [] && u < trips[0].enter
    ensures !OutOfTheWay(trips, u)
  {
    assert Matches(samples, enter, exit, trips[0]);
    forall k | 0 <= k < |trips| ensures u < trips[k].enter {
      if k > 0 { OrderedEnters(samples, enter, exit, trips, 0, k); }
    }
  }

  lemma TripOf(samples: seq<Sample>, exit: Kind, i: nat, trips: Pairing, j: nat) returns (k: nat)
    requires ExitsEnd(samples, exit, i, trips) && i <= j < |samples| && samples[j].kind == exit
    ensures k < |trips| && trips[k].exit == j
  {
    k :| k < |trips| && trips[k].exit == j;
  }

  lemma FirstEndsFirst(samples: seq<Sample>, enter: Kind, exit: Kind, trips: Pairing, k: nat)
    requires Pairs(samples, enter, exit, trips) && k < |trips|
    ensures trips[0].exit <= trips[k].exit
  {
    assert Matches(samples, enter, exit, trips[k]);
    if k > 0 { OrderedEnters(samples, enter, exit, trips, 0, k); }
  }

  lemma FirstExit(samples: seq<Sample>, enter: Kind, exit: Kind, trips: Pairing)
    requires Pairs(samples, enter, exit, trips) && trips != [] && ExitsEnd(samples, exit, trips[0].enter, trips)
    ensures trips[0].enter < |samples| && NextExit(samples, exit, trips[0].enter + 1) == trips[0].exit < |samples|
  {
    assert Matches(samples, enter, exit, trips[0]);
    hide Pairs, ExitsEnd, NextExit;
    NoExitBefore(samples, exit, trips[0].enter + 1, trips[0].exit);
    var k := TripOf(samples, exit, trips[0].enter, trips, NextExit(samples, exit, trips[0].enter + 1));
    FirstEndsFirst(samples, enter, exit, trips, k);
  }

  /** What holds of the trips behind the first. */
  lemma RestEnds(samples: seq<Sample>, exit: Kind, i: nat, trips: Pairing)
    requires trips != [] && i <= trips[0].exit && ExitsEnd(samples, exit, i, trips)
    ensures ExitsEnd(samples, exit, trips[0].exit + 1, trips[1..])
  {
    var rest := trips[1..];
    forall j | trips[0].exit < j < |samples| && samples[j].kind == exit
      ensures exists k :: 0 <= k < |rest| && rest[k].exit == j
    {
      var k :| 0 <= k < |trips| && trips[k].exit == j;
      assert rest[k - 1].exit == j;
    }
  }

  lemma RestIsOutOfTheWayOf(trips: Pairing, u: nat)
    requires trips != [] && trips[0].exit < u && OutOfTheWay(trips, u)
    ensures OutOfTheWay(trips[1..], u)
  {
    var rest := trips[1..];
    if k :| 0 <= k < |trips| && trips[k].enter <= u < trips[k].exit {
      assert rest[k - 1] == trips[k];
    } else {
      assert forall k :: 0 <= k < |rest| ==> rest[k] == trips[k + 1];
    }
  }

  /** From i on, trips that the greedy pairing finds. */
  predicate Findable(samples: seq<Sample>, enter: Kind, exit: Kind, i: nat, trips: Pairing) {
    && i <= |samples| && Pairs(samples, enter, exit, trips) && StartsAt(trips, i)
    && ExitsEnd(samples, exit, i, trips) && NoneInTheWay(samples, enter, i, trips)
  }

  lemma SkipsTheEnter(samples: seq<Sample>, enter: Kind, exit: Kind, i: nat, trips: Pairing)
    requires Findable(samples, enter, exit, i, trips) && trips != [] && i < trips[0].enter
    ensures Findable(samples, enter, exit, i + 1, trips) && i < |samples| && samples[i].kind != enter
  {
    assert Matches(samples, enter, exit, trips[0]);
    InTheWayOfTheFirst(samples, enter, exit, trips, i);
    hide Pairs, OutOfTheWay;
  }

  lemma TakesTheTrip(samples: seq<Sample>, enter: Kind, exit: Kind, i: nat, trips: Pairing)
    requires Findable(samples, enter, exit, i, trips) && trips != [] && i == trips[0].enter
    ensures i < |samples| && samples[i].kind == enter && NextExit(samples, exit, i + 1) == trips[0].exit < |samples|
    ensures Findable(samples, enter, exit, trips[0].exit + 1, trips[1..])
  {
    hide OutOfTheWay, ExitsEnd, NextExit, Pairs, NoneInTheWay, InOrder, StartsAt;
    FirstMatches(samples, enter, exit, trips);
    FirstExit(samples, enter, exit, trips);
    RestEnds(samples, exit, i, trips);
    TailPairs(samples, enter, exit, trips);
    RestIsFree(samples, enter, i, trips);
  }

  lemma FirstMatches(samples: seq<Sample>, enter: Kind, exit: Kind, trips: Pairing)
    requires Pairs(samples, enter, exit, trips) && trips != []
    ensures Matches(samples, enter, exit, trips[0])
  {}

  lemma TailPairs(samples: seq<Sample>, enter: Kind, exit: Kind, trips: Pairing)
    requires Pairs(samples, enter, exit, trips) && trips != []
    ensures Pairs(samples, enter, exit, trips[1..]) && StartsAt(trips[1..], trips[0].exit + 1)
  {
    Tail(trips);
    assert forall k :: 0 <= k < |trips[1..]| ==> trips[1..][k] == trips[k + 1];
    hide InOrder;
  }

  lemma RestIsFree(samples: seq<Sample>, enter: Kind, i: nat, trips: Pairing)
    requires trips != [] && NoneInTheWay(samples, enter, i, trips) && i <= trips[0].exit
    ensures NoneInTheWay(samples, enter, trips[0].exit + 1, trips[1..])
  {
    forall u | trips[0].exit < u < |samples| && samples[u].kind == enter ensures OutOfTheWay(trips[1..], u) {
      RestIsOutOfTheWayOf(trips, u);
    }
    hide OutOfTheWay;
  }

  lemma {:induction false} FindsTheTrips(samples: seq<Sample>, enter: Kind, exit: Kind, i: nat, trips: Pairing)
    requires i <= |samples| && Findable(samples, enter, exit, i, trips)
    ensures Greedy(samples, enter, exit, i) == trips
    decreases |samples| - i
  {
    hide Greedy, Findable, NextExit, ExitsEnd;
    if trips == [] {
      NothingThere(samples, enter, exit, i);
    } else if i < trips[0].enter {
      SkipsTheEnter(samples, enter, exit, i, trips);
      GreedyUnfolds(samples, enter, exit, i);
      FindsTheTrips(samples, enter, exit, i + 1, trips);
    } else {
      StartsHere(samples, enter, exit, i, trips);
      TakesTheTrip(samples, enter, exit, i, trips);
      GreedyUnfolds(samples, enter, exit, i);
      FindsTheTrips(samples, enter, exit, trips[0].exit + 1, trips[1..]);
    }
  }

  lemma StartsHere(samples: seq<Sample>, enter: Kind, exit: Kind, i: nat, trips: Pairing)
    requires Findable(samples, enter, exit, i, trips) && trips != [] && i >= trips[0].enter
    ensures i == trips[0].enter
  {
    hide Pairs, ExitsEnd, NoneInTheWay;
  }

  lemma NothingThere(samples: seq<Sample>, enter: Kind, exit: Kind, i: nat)
    requires i <= |samples| && Findable(samples, enter, exit, i, [])
    ensures Greedy(samples, enter, exit, i) == []
  {
    NothingToFind(samples, enter, exit, i);
  }

  lemma {:induction false} GreedyPassesEnters(samples: seq<Sample>, enter: Kind, exit: Kind, i: nat, u: nat)
    requires i <= u < |samples| && samples[u].kind == enter && enter != exit
    ensures OutOfTheWay(Greedy(samples, enter, exit, i), u)
    decreases |samples| - i
  {
    hide Greedy, NextExit, OutOfTheWay;
    GreedyUnfolds(samples, enter, exit, i);
    var j := if samples[i].kind == enter then NextExit(samples, exit, i + 1) else |samples|;
    if j < |samples| {
      if u > j { GreedyPassesEnters(samples, enter, exit, j + 1, u); }
      FirstPasses(Pair(i, j), Greedy(samples, enter, exit, j + 1), u);
    } else if u > i {
      GreedyPassesEnters(samples, enter, exit, i + 1, u);
    } else {
      NoExitNoPair(samples, enter, exit, i);
      AllHaveEnded(u);
    }
  }

  lemma AllHaveEnded(u: nat)
    ensures OutOfTheWay([], u)
  {}

  lemma FirstPasses(pair: Pair, rest: Pairing, u: nat)
    requires pair.enter <= u && u != pair.exit && (u > pair.exit ==> OutOfTheWay(rest, u))
    ensures OutOfTheWay([pair] + rest, u)
  {
    var p := [pair] + rest;
    if u < pair.exit {
      assert p[0] == pair;
    } else if k :| 0 <= k < |rest| && rest[k].enter <= u < rest[k].exit {
      assert p[k + 1] == rest[k];
    }
  }

  lemma NoExitNoPair(samples: seq<Sample>, enter: Kind, exit: Kind, i: nat)
    requires i < |samples| && samples[i].kind == enter && NextExit(samples, exit, i + 1) == |samples|
    ensures Greedy(samples, enter, exit, i) == []
  {
    var g := Greedy(samples, enter, exit, i);
    GreedyIsAPairing(samples, enter, exit, i);
    if g != [] {
      assert Matches(samples, enter, exit, g[0]);
      NoExitBefore(samples, exit, i + 1, g[0].exit);
    }
  }

  /** Samples may hold enters that were never answered.  Pairs finds exactly the round trips that took
      place when no two of them overlap and no enter comes in the way: every other enter lies within a
      trip or behind all of them. */
  lemma TripsAreFoundIff(samples: seq<Sample>, enter: Kind, exit: Kind, trips: Pairing)
    requires enter != exit && (forall k :: 0 <= k < |trips| ==> Matches(samples, enter, exit, trips[k]))
    requires ExitsEnd(samples, exit, 0, trips)
    ensures Greedy(samples, enter, exit, 0) == trips <==> InOrder(trips) && NoneInTheWay(samples, enter, 0, trips)
  {
    hide OutOfTheWay, ExitsEnd;
    if InOrder(trips) && NoneInTheWay(samples, enter, 0, trips) {
      FindsTheTrips(samples, enter, exit, 0, trips);
    }
    if Greedy(samples, enter, exit, 0) == trips {
      GreedyIsAPairing(samples, enter, exit, 0);
      forall u | 0 <= u < |samples| && samples[u].kind == enter ensures OutOfTheWay(trips, u) {
        GreedyPassesEnters(samples, enter, exit, 0, u);
      }
    }
  }

  /** Such as these: two requests under way at once. */
  lemma OverlappingRoundTripsAreMerged()
    ensures var s := [Sample(Request, 0, 0), Sample(Request, 1, 0), Sample(Response, 2, 0), Sample(Response, 3, 0)];
            Greedy(s, Request, Response, 0) == [Pair(0, 2)]
  {
    var s := [Sample(Request, 0, 0), Sample(Request, 1, 0), Sample(Response, 2, 0), Sample(Response, 3, 0)];
    assert NextExit(s, Response, 1) == 2 by { assert NextExit(s, Response, 2) == 2; }
    assert Greedy(s, Request, Response, 3) == Greedy(s, Request, Response, 4) == [];
  }

  // ------------------------------------------------------------------------------ durations

  function At(samples: seq<Sample>, k: nat): int { if k < |samples| then samples[k].at else 0 }

  function Durations(samples: seq<Sample>, p: Pairing): (ds: seq<int>)
    ensures |ds| == |p|
    ensures forall k :: 0 <= k < |p| ==> ds[k] == At(samples, p[k].exit) - At(samples, p[k].enter)
  {
    seq(|p|, k requires 0 <= k < |p| => At(samples, p[k].exit) - At(samples, p[k].enter))
  }

  function GreedyDurations(samples: seq<Sample>, enter: Kind, exit: Kind, i: nat): seq<int>
    requires i <= |samples|
  {
    Durations(samples, Greedy(samples, enter, exit, i))
  }

  /** One turn of the outer loop, that starts at i and moves on to j. */
  lemma MatchTurns(samples: seq<Sample>, enter: Kind, exit: Kind, i: nat)
    requires i < |samples|
    ensures var j := if samples[i].kind == enter then NextExit(samples, exit, i + 1) else |samples|;
            GreedyDurations(samples, enter, exit, i)
            == if j == |samples| then GreedyDurations(samples, enter, exit, i + 1)
               else [samples[j].at - samples[i].at] + GreedyDurations(samples, enter, exit, j + 1)
  {
    hide Greedy, NextExit, Durations;
    GreedyUnfolds(samples, enter, exit, i);
    var j := if samples[i].kind == enter then NextExit(samples, exit, i + 1) else |samples|;
    if j < |samples| {
      DurationsPrepend(samples, Pair(i, j), Greedy(samples, enter, exit, j + 1));
    }
  }

  lemma DurationsPrepend(samples: seq<Sample>, pair: Pair, p: Pairing)
    ensures Durations(samples, [pair] + p) == [At(samples, pair.exit) - At(samples, pair.enter)] + Durations(samples, p)
  {}

  function Sum(ds: seq<int>): int { if ds == [] then 0 else ds[0] + Sum(ds[1..]) }

  predicate Nondecreasing(samples: seq<Sample>) {
    forall k, l :: 0 <= k <= l < |samples| ==> samples[k].at <= samples[l].at
  }

  /** Whatever the pairing, its stretches fit one after the other into the span that was sampled. */
  lemma {:induction false} DurationsFitTheSpan(samples: seq<Sample>, enter: Kind, exit: Kind, p: Pairing, i: nat)
    requires Pairs(samples, enter, exit, p) && StartsAt(p, i) && i < |samples| && Nondecreasing(samples)
    ensures 0 <= Sum(Durations(samples, p)) <= samples[|samples| - 1].at - samples[i].at
    ensures forall k :: 0 <= k < |p| ==> Durations(samples, p)[k] >= 0
    decreases |p|
  {
    if p == [] {
    } else {
      var rest, j := p[1..], p[0].exit;
      Tail(p);
      DurationsFitTheSpan(samples, enter, exit, rest, j);
      assert p == [p[0]] + rest;
      DurationsPrepend(samples, p[0], rest);
    }
  }

  // ------------------------------------------------------------------------------ the class

  class LatencyTamperer {
    const cap: nat
    var samples: seq<Sample>
    var dropped: nat
    /** Everything that was ever offered to record. */
    ghost var log: seq<Sample>

    ghost predicate Valid()
      reads this
    {
      samples == log[..Min(cap, |log|)] && dropped == |log| - |samples|
    }

    constructor (capacity: nat)
      ensures Valid() && log == [] && cap == capacity
    {
      cap, samples, dropped, log := capacity, [], 0, [];
    }

    method Record(kind: Kind, now: int, n: nat)
      requires Valid()
      modifies this
      ensures Valid() && log == old(log) + [Sample(kind, now, n)]
    {
      log := log + [Sample(kind, now, n)];
      if |samples| >= cap {
        dropped := dropped + 1;
        return;
      }
      samples := samples + [Sample(kind, now, n)];
    }

    /** The inner loop of Pairs. */
    method FindExit(exit: Kind, from: nat) returns (j: nat)
      requires from <= |samples|
      ensures j == NextExit(samples, exit, from)
    {
      j := from;
      while j < |samples| && samples[j].kind != exit
        invariant from <= j <= |samples| && NextExit(samples, exit, from) == NextExit(samples, exit, j)
      {
        j := j + 1;
      }
    }

    /** Pairs. */
    method Match(enter: Kind, exit: Kind) returns (durations: seq<int>)
      requires Valid()
      ensures durations == GreedyDurations(samples, enter, exit, 0)
    {
      hide Greedy, GreedyDurations, Durations, NextExit, InOrder;
      durations := [];
      var i := 0;
      while i < |samples|
        invariant i <= |samples|
        invariant durations + GreedyDurations(samples, enter, exit, i) == GreedyDurations(samples, enter, exit, 0)
      {
        MatchTurns(samples, enter, exit, i);
        if samples[i].kind == enter {
          var j := FindExit(exit, i + 1);
          if j < |samples| {
            ghost var rest := GreedyDurations(samples, enter, exit, j + 1);
            assert durations + ([samples[j].at - samples[i].at] + rest)
                   == durations + [samples[j].at - samples[i].at] + rest;
            durations := durations + [samples[j].at - samples[i].at];
            i := j;
          }
        }
        i := i + 1;
      }
      NothingLeft(samples, enter, exit);
    }
  }

  lemma NothingLeft(samples: seq<Sample>, enter: Kind, exit: Kind)
    ensures GreedyDurations(samples, enter, exit, |samples|) == []
  {}
}
