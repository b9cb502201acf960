/** When the push keys of one run ascend, told from the calls. */
module PushOrder {
  import opened PushId
  import opened PushUnique

  /** The call is the first of the run in its millisecond. */
  predicate Opens(calls: seq<Call>, i: nat)
    requires i < |calls|
  {
    i == 0 || calls[i - 1].now != calls[i].now
  }

  /** The suffix with which a run enters the millisecond of such a call. */
  function FirstSuffix(s: State, calls: seq<Call>, i: nat): Digits
    requires s.Valid() && i < |calls| && calls[i].Valid()
  {
    if i == 0 && calls[i].now == s.time then Bump(s.rand) else calls[i].random
  }

  /** In every millisecond the first suffix leaves room for the further calls. */
  predicate Room(s: State, calls: seq<Call>, p: nat)
    requires s.Valid() && forall i | 0 <= i < |calls| :: calls[i].Valid()
  {
    forall i: nat, j: nat | i <= j < |calls| && Opens(calls, i) && calls[i].now == calls[j].now ::
      Value(FirstSuffix(s, calls, i)) + (j - i) < p
  }

  lemma FirstState(s: State, calls: seq<Call>, i: nat)
    requires s.Valid() && i < |calls| && Opens(calls, i)
    requires forall i | 0 <= i < |calls| :: calls[i].Valid()
    ensures States(s, calls)[i].rand == FirstSuffix(s, calls, i)
  {
    if i == 0 {
      StateAtStart(s, calls);
    }
  }

  lemma {:induction false} StateAtStart(s: State, calls: seq<Call>)
    requires s.Valid() && calls != [] && forall i | 0 <= i < |calls| :: calls[i].Valid()
    ensures States(s, calls)[0] == Next(s, calls[0])
    decreases |calls|
  {
    if |calls| > 1 {
      StateAtStart(s, calls[..|calls| - 1]);
    }
  }

  /** The first call in the millisecond of call `j`. */
  lemma {:induction false} OpeningCall(calls: seq<Call>, j: nat) returns (i: nat)
    requires Clocked(calls) && j < |calls|
    ensures i <= j && Opens(calls, i) && calls[i].now == calls[j].now
    decreases j
  {
    i := j;
    if !Opens(calls, j) {
      i := OpeningCall(calls, j - 1);
    }
  }

  lemma Full(s: State, p: nat)
    requires s.Valid() && p == Pow64(12)
    ensures Value(s.rand) < p && (Saturated(s.rand) <==> Value(s.rand) + 1 == p)
  {
    SaturatedValue(s.rand);
    ValueBound(s.rand);
  }

  /** Call `k` is not the first, and advances. */
  predicate Ahead(states: seq<State>, calls: seq<Call>, k: nat) {
    0 < k < |calls| && k <= |states| && Advances(states[k - 1], calls[k])
  }

  predicate AllAhead(states: seq<State>, calls: seq<Call>) {
    forall k: nat | 0 < k < |calls| :: Ahead(states, calls, k)
  }

  /** A call that finds room advances. */
  lemma RoomAdvances(s: State, calls: seq<Call>, p: nat, i: nat, j: nat)
    requires s.Valid() && Clocked(calls) && p == Pow64(12)
    requires i < j < |calls| && Opens(calls, i) && calls[i].now == calls[j - 1].now
    requires calls[j - 1].now == calls[j].now ==> Value(FirstSuffix(s, calls, i)) + (j - i) < p
    ensures Ahead(States(s, calls), calls, j)
  {
    var states := States(s, calls);
    assert calls[j - 1].now <= calls[j].now;
    if calls[j - 1].now == calls[j].now {
      FirstState(s, calls, i);
      CountsOn(states, calls, i, j - 1, p);
      Full(states[j - 1], p);
    }
  }

  lemma CountsOn(states: seq<State>, calls: seq<Call>, i: nat, j: nat, p: nat)
    requires Chained(states, calls) && Clocked(calls)
    requires i <= j < |calls| && calls[i].now == calls[j].now && p == Pow64(12)
    ensures Value(states[i].rand) + (j - i) < p ==> Value(states[j].rand) == Value(states[i].rand) + (j - i)
  {
    var wraps := Counts(states, calls, i, j, p);
    NoWrap(Value(states[j].rand), Value(states[i].rand) + (j - i), wraps, p);
  }

  lemma NoWrap(u: nat, v: nat, wraps: nat, p: nat)
    requires u + wraps * p == v
    ensures v < p ==> u == v
  {
    if wraps > 0 {
      assert wraps * p >= p;
    }
  }

  /** As long as the calls of a millisecond advance, they count the suffix up. */
  lemma {:induction false} AdvancesCount(states: seq<State>, calls: seq<Call>, i: nat, j: nat, p: nat)
    requires Chained(states, calls) && Clocked(calls) && AllAhead(states, calls)
    requires i <= j < |calls| && calls[i].now == calls[j].now && p == Pow64(12)
    ensures Value(states[i].rand) + (j - i) == Value(states[j].rand) < p
    decreases j - i
  {
    Full(states[j], p);
    if i < j {
      assert calls[i].now <= calls[j - 1].now <= calls[j].now;
      AdvancesCount(states, calls, i, j - 1, p);
      assert Ahead(states, calls, j);
      Full(states[j - 1], p);
      Successor(states[j - 1], calls[j], p);
    }
  }

  lemma {:induction false} AdvancesClocked(states: seq<State>, calls: seq<Call>, i: nat, j: nat)
    requires |states| == |calls| && forall k | 0 <= k < |calls| :: states[k].time == calls[k].now
    requires AllAhead(states, calls) && i <= j < |calls|
    ensures calls[i].now <= calls[j].now
    decreases j - i
  {
    if i < j {
      AdvancesClocked(states, calls, i, j - 1);
      assert Ahead(states, calls, j);
    }
  }

  lemma OrderAhead(s: State, calls: seq<Call>)
    requires s.Valid() && forall i | 0 <= i < |calls| :: calls[i].Valid() && calls[i].now < Pow64(8)
    ensures Ascending(Keys(s, calls)) <==> AllAhead(States(s, calls), calls)
  {
    var states := States(s, calls);
    RunOrder(s, calls);
    if AllAhead(states, calls) {
      forall k | 0 < k < |calls|
        ensures Advances(states[k - 1], calls[k])
      {
        assert Ahead(states, calls, k);
      }
    }
  }

  lemma AheadHasRoom(s: State, calls: seq<Call>, p: nat)
    requires s.Valid() && p == Pow64(12)
    requires forall i | 0 <= i < |calls| :: calls[i].Valid() && calls[i].now < Pow64(8)
    requires AllAhead(States(s, calls), calls)
    ensures Clocked(calls) && Room(s, calls, p)
  {
    var states := States(s, calls);
    forall i, j | 0 <= i <= j < |calls|
      ensures calls[i].now <= calls[j].now
    {
      AdvancesClocked(states, calls, i, j);
    }
    forall i: nat, j: nat | i <= j < |calls| && Opens(calls, i) && calls[i].now == calls[j].now
      ensures Value(FirstSuffix(s, calls, i)) + (j - i) < p
    {
      FirstState(s, calls, i);
      AdvancesCount(states, calls, i, j, p);
    }
  }

  lemma RoomAhead(s: State, calls: seq<Call>, p: nat)
    requires s.Valid() && Clocked(calls) && Room(s, calls, p) && p == Pow64(12)
    ensures AllAhead(States(s, calls), calls)
  {
    forall j: nat | 0 < j < |calls|
      ensures Ahead(States(s, calls), calls, j)
    {
      var i := OpeningCall(calls, j - 1);
      RoomAdvances(s, calls, p, i, j);
    }
  }

  /** The keys of a run are strictly ascending exactly if the clock does not go back and every millisecond has
      room. */
  lemma RunOrderExact(s: State, calls: seq<Call>, p: nat)
    requires s.Valid() && p == Pow64(12)
    requires forall i | 0 <= i < |calls| :: calls[i].Valid() && calls[i].now < Pow64(8)
    ensures Ascending(Keys(s, calls)) <==> Clocked(calls) && Room(s, calls, p)
  {
    OrderAhead(s, calls);
    if Ascending(Keys(s, calls)) {
      AheadHasRoom(s, calls, p);
    }
    if Clocked(calls) && Room(s, calls, p) {
      RoomAhead(s, calls, p);
    }
  }
}
