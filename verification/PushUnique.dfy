/** When two push keys of one run are equal. */
module PushUnique {
  import opened PushId

  predicate Distinct(keys: seq<string>) {
    forall i, j | 0 <= i < j < |keys| :: keys[i] != keys[j]
  }

  lemma {:induction false} SaturatedValue(ds: Digits)
    requires IsDigits(ds)
    ensures Saturated(ds) <==> Value(ds) == Pow64(|ds|) - 1
  {
    if ds != [] {
      var front := ds[..|ds| - 1];
      SaturatedValue(front);
      ValueBound(front);
      assert Saturated(ds) <==> Saturated(front) && ds[|ds| - 1] == 63;
    }
  }

  lemma {:induction false} ValueInjective(a: Digits, b: Digits)
    requires IsDigits(a) && IsDigits(b) && |a| == |b| && Value(a) == Value(b)
    ensures a == b
  {
    if a != [] {
      ValueInjective(a[..|a| - 1], b[..|b| - 1]);
      assert a == a[..|a| - 1] + [a[|a| - 1]] && b == b[..|b| - 1] + [b[|b| - 1]];
    }
  }

  lemma SpellInjective(a: Digits, b: Digits)
    requires IsDigits(a) && IsDigits(b) && |a| == |b| && Spell(a) == Spell(b)
    ensures a == b
  {
    forall i | 0 <= i < |a|
      ensures a[i] == b[i]
    {
      assert Spell(a)[i] == Spell(b)[i];
      if a[i] < b[i] {
        AlphabetSorted(a[i], b[i]);
      } else if b[i] < a[i] {
        AlphabetSorted(b[i], a[i]);
      }
    }
  }

  /** A key tells the time and the suffix apart from all others. */
  lemma SameKey(s: State, t: State)
    requires s.Valid() && t.Valid() && s.time < Pow64(8) && t.time < Pow64(8)
    ensures Id(s) == Id(t) <==> s.time == t.time && Value(s.rand) == Value(t.rand)
  {
    var a, b := Encode(s.time, 8), Encode(t.time, 8);
    if Id(s) == Id(t) {
      SpellInjective(a + s.rand, b + t.rand);
      assert a == (a + s.rand)[..8] && b == (b + t.rand)[..8];
      assert s.rand == (a + s.rand)[8..] && t.rand == (b + t.rand)[8..];
      EncodeValue(s.time, 8);
      EncodeValue(t.time, 8);
    }
    if s.time == t.time && Value(s.rand) == Value(t.rand) {
      ValueInjective(s.rand, t.rand);
    }
  }

  /** The clock does not go back, and stays below 64^8. */
  predicate Clocked(calls: seq<Call>) {
    && (forall i | 0 <= i < |calls| :: calls[i].Valid() && calls[i].now < Pow64(8))
    && (forall i, j | 0 <= i <= j < |calls| :: calls[i].now <= calls[j].now)
  }

  lemma Successor(s: State, c: Call, p: nat)
    requires s.Valid() && c.Valid() && c.now == s.time && p == Pow64(12)
    ensures Value(s.rand) < p
    ensures Value(Next(s, c).rand) == if Value(s.rand) + 1 == p then 0 else Value(s.rand) + 1
  {
    BumpValue(s.rand);
    SaturatedValue(s.rand);
    ValueBound(s.rand);
  }

  /** What the calls make of the states, one after the other. */
  predicate Chained(states: seq<State>, calls: seq<Call>) {
    && |states| == |calls|
    && (forall i | 0 <= i < |calls| :: calls[i].Valid() && states[i].Valid() && states[i].time == calls[i].now)
    && (forall i | 0 < i < |calls| :: states[i] == Next(states[i - 1], calls[i]))
  }

  /** Calls in one millisecond count the suffix up; `wraps` times it starts from 0 again. */
  lemma {:induction false} Counts(states: seq<State>, calls: seq<Call>, i: nat, j: nat, p: nat) returns (wraps: nat)
    requires Chained(states, calls) && Clocked(calls)
    requires i <= j < |calls| && calls[i].now == calls[j].now && p == Pow64(12)
    ensures Value(states[j].rand) + wraps * p == Value(states[i].rand) + (j - i)
    decreases j - i
  {
    wraps := 0;
    if i < j {
      assert calls[i].now <= calls[j - 1].now <= calls[j].now;
      var before := Counts(states, calls, i, j - 1, p);
      Successor(states[j - 1], calls[j], p);
      wraps := OneStep(Value(states[j - 1].rand), Value(states[j].rand), before, p);
    }
  }

  /** One step on; `wraps` goes up when the number starts again. */
  lemma OneStep(v: nat, next: nat, wraps: nat, p: nat) returns (wraps': nat)
    requires next == if v + 1 == p then 0 else v + 1
    ensures next + wraps' * p == v + wraps * p + 1
  {
    wraps' := if v + 1 == p then wraps + 1 else wraps;
    assert (wraps + 1) * p == wraps * p + p;
  }

  /** Below `p`, adding as many times `p` as it takes to come back to the start. */
  lemma BackAtStart(v: nat, u: nat, wraps: nat, n: nat, p: nat)
    requires v < p && u < p && u + wraps * p == v + n
    ensures n == p ==> u == v
    ensures 0 < n && u == v ==> p <= n
  {
    if wraps >= 2 {
      assert wraps * p >= 2 * p;
    } else if wraps == 1 {
      assert wraps * p == p;
    }
  }

  /** Two equal keys of a run are of one millisecond, and at least 64^12 calls apart; at that distance the key comes
      again. */
  lemma EqualKeys(s: State, calls: seq<Call>, i: nat, j: nat, p: nat)
    requires s.Valid() && Clocked(calls) && i < j < |calls| && p == Pow64(12)
    ensures Keys(s, calls)[i] == Keys(s, calls)[j] ==> calls[i].now == calls[j].now && p <= j - i
    ensures calls[i].now == calls[j].now && p == j - i ==> Keys(s, calls)[i] == Keys(s, calls)[j]
  {
    var a, b := States(s, calls)[i], States(s, calls)[j];
    SameKey(a, b);
    if calls[i].now == calls[j].now {
      var wraps := Counts(States(s, calls), calls, i, j, p);
      ValueBound(a.rand);
      ValueBound(b.rand);
      BackAtStart(Value(a.rand), Value(b.rand), wraps, j - i, p);
    }
  }

  lemma PowPositive(p: nat)
    requires p == Pow64(12)
    ensures p > 0
  {
  }

  /** The keys of a run are unique exactly if no millisecond has more than 64^12 calls, also where the suffix wraps
      and the order is lost. */
  lemma KeysUnique(s: State, calls: seq<Call>, p: nat)
    requires s.Valid() && Clocked(calls) && p == Pow64(12)
    ensures Distinct(Keys(s, calls)) <==> forall i: nat | i + p < |calls| :: calls[i].now < calls[i + p].now
  {
    var keys := Keys(s, calls);
    PowPositive(p);
    if Distinct(keys) {
      forall i: nat | i + p < |calls|
        ensures calls[i].now < calls[i + p].now
      {
        EqualKeys(s, calls, i, i + p, p);
        assert keys[i] != keys[i + p] && calls[i].now <= calls[i + p].now;
      }
    }
    if forall i: nat | i + p < |calls| :: calls[i].now < calls[i + p].now {
      forall i, j | 0 <= i < j < |keys|
        ensures keys[i] != keys[j]
      {
        EqualKeys(s, calls, i, j, p);
        assert p <= j - i ==> calls[i].now < calls[i + p].now <= calls[j].now;
      }
    }
  }

  /** 64^12 + 1 calls at one time: the first key and the last are equal. */
  lemma KeyRepeats(s: State, c: Call, calls: seq<Call>, p: nat)
    requires s.Valid() && c.Valid() && c.now < Pow64(8) && p == Pow64(12)
    requires |calls| == p + 1 && forall i | 0 <= i <= p :: calls[i] == c
    ensures Clocked(calls) && Keys(s, calls)[0] == Keys(s, calls)[p]
  {
    PowPositive(p);
    EqualKeys(s, calls, 0, p, p);
  }
}
