/** Push keys: eight base-64 digits of the time in milliseconds and twelve digits that are random, or one more
    than those of the previous key when the time is the same. */
module PushId {
  const UPPER: string := "ABCDEFGHIJKLMNOPQRSTUVWXYZ"
  const LOWER: string := "abcdefghijklmnopqrstuvwxyz"
  const PUSH_CHARS: string := "-0123456789" + UPPER + "_" + LOWER

  type Digits = seq<nat>

  predicate IsDigits(ds: Digits) {
    forall i | 0 <= i < |ds| :: ds[i] < 64
  }

  function Pow64(n: nat): nat {
    if n == 0 then 1 else 64 * Pow64(n - 1)
  }

  /** The number that the digits denote, most significant first. */
  function Value(ds: Digits): nat {
    if ds == [] then 0 else 64 * Value(ds[..|ds| - 1]) + ds[|ds| - 1]
  }

  /** The last `width` base-64 digits of `n`. */
  function Encode(n: nat, width: nat): (ds: Digits)
    ensures |ds| == width && IsDigits(ds)
  {
    if width == 0 then [] else Encode(n / 64, width - 1) + [n % 64]
  }

  /** The digits of the successor; all 63 becomes all 0. */
  function Bump(ds: Digits): (r: Digits)
    requires IsDigits(ds)
    ensures |r| == |ds| && IsDigits(r)
  {
    if ds == [] then []
    else if ds[|ds| - 1] != 63 then ds[..|ds| - 1] + [ds[|ds| - 1] + 1]
    else Bump(ds[..|ds| - 1]) + [0]
  }

  predicate Saturated(ds: Digits) {
    forall i | 0 <= i < |ds| :: ds[i] == 63
  }

  function Spell(ds: Digits): (s: string)
    requires IsDigits(ds)
    ensures |s| == |ds| && forall i | 0 <= i < |s| :: s[i] == PUSH_CHARS[ds[i]]
  {
    seq(|ds|, i requires 0 <= i < |ds| => PUSH_CHARS[ds[i]])
  }

  /** The byte order of strings. */
  predicate Less(s: string, t: string) {
    if t == "" then false
    else if s == "" then true
    else s[0] < t[0] || (s[0] == t[0] && Less(s[1..], t[1..]))
  }

  // ----- digits and numbers -----

  function CodePoint(i: nat): int {
    if i == 0 then 45 else if i <= 10 then 47 + i else if i <= 36 then 54 + i else if i == 37 then 95 else 59 + i
  }

  lemma LetterCodes(i: nat)
    requires i < 26
    ensures UPPER[i] as int == 65 + i && LOWER[i] as int == 97 + i
  {
  }

  lemma AlphabetCodes(i: nat)
    requires i < 64
    ensures |PUSH_CHARS| == 64 && PUSH_CHARS[i] as int == CodePoint(i)
  {
    if 11 <= i <= 36 { LetterCodes(i - 11); }
    if 38 <= i { LetterCodes(i - 38); }
  }

  /** The alphabet is in byte order. */
  lemma AlphabetSorted(i: nat, j: nat)
    requires i < j < 64
    ensures PUSH_CHARS[i] < PUSH_CHARS[j]
  {
    AlphabetCodes(i);
    AlphabetCodes(j);
  }

  /** A leading part decides the order, and the rest decides among equals. */
  lemma LeadingDecides(x: nat, u: nat, y: nat, v: nat, p: nat)
    requires u < p && v < p
    ensures x * p + u < y * p + v <==> x < y || (x == y && u < v)
  {
    if x < y {
      assert (x + 1) * p <= y * p;
    } else if y < x {
      assert (y + 1) * p <= x * p;
    }
  }

  lemma {:induction false} EncodeValue(n: nat, width: nat)
    requires n < Pow64(width)
    ensures Value(Encode(n, width)) == n
  {
    if width > 0 {
      EncodeValue(n / 64, width - 1);
      assert Encode(n, width)[..width - 1] == Encode(n / 64, width - 1);
    }
  }

  lemma {:induction false} ValueBound(ds: Digits)
    requires IsDigits(ds)
    ensures Value(ds) < Pow64(|ds|)
  {
    if ds != [] {
      ValueBound(ds[..|ds| - 1]);
    }
  }

  /** The carry loop adds exactly one, unless every digit is 63: then the number wraps to 0. */
  lemma {:induction false} BumpValue(ds: Digits)
    requires IsDigits(ds)
    ensures if Saturated(ds) then Value(Bump(ds)) == 0 else Value(Bump(ds)) == Value(ds) + 1
  {
    if ds != [] {
      var front, r := ds[..|ds| - 1], Bump(ds);
      if ds[|ds| - 1] != 63 {
        assert r[..|r| - 1] == front;
      } else {
        BumpValue(front);
        assert r[..|r| - 1] == Bump(front);
        assert Saturated(front) ==> Saturated(ds);
      }
    }
  }

  lemma {:induction false} ValueFirst(ds: Digits)
    requires ds != []
    ensures Value(ds) == ds[0] * Pow64(|ds| - 1) + Value(ds[1..])
    decreases |ds|
  {
    if |ds| > 1 {
      var front := ds[..|ds| - 1];
      ValueFirst(front);
      assert front[1..] == ds[1..][..|ds| - 2] && ds[1..][|ds| - 2] == ds[|ds| - 1];
      assert 64 * (ds[0] * Pow64(|ds| - 2)) == ds[0] * Pow64(|ds| - 1);
    } else {
      assert ds[..0] == [] && ds[1..] == [];
    }
  }

  lemma SpellFirst(ds: Digits)
    requires ds != [] && IsDigits(ds)
    ensures Spell(ds)[0] == PUSH_CHARS[ds[0]] && Spell(ds)[1..] == Spell(ds[1..])
  {
  }

  /** Spelled with the sorted alphabet, numbers of one width are ordered as strings as they are as numbers. */
  lemma {:induction false} SpellOrder(a: Digits, b: Digits)
    requires IsDigits(a) && IsDigits(b) && |a| == |b|
    ensures Less(Spell(a), Spell(b)) <==> Value(a) < Value(b)
    decreases |a|
  {
    if a != [] {
      SpellOrder(a[1..], b[1..]);
      SpellFirst(a);
      SpellFirst(b);
      ValueFirst(a);
      ValueFirst(b);
      ValueBound(a[1..]);
      ValueBound(b[1..]);
      LeadingDecides(a[0], Value(a[1..]), b[0], Value(b[1..]), Pow64(|a| - 1));
      if a[0] < b[0] {
        AlphabetSorted(a[0], b[0]);
      } else if b[0] < a[0] {
        AlphabetSorted(b[0], a[0]);
      }
    }
  }

  lemma {:induction false} ValueJoin(a: Digits, b: Digits)
    ensures Value(a + b) == Value(a) * Pow64(|b|) + Value(b)
    decreases |b|
  {
    if b == [] {
      assert a + b == a;
    } else {
      var front := b[..|b| - 1];
      ValueJoin(a, front);
      assert (a + b)[..|a + b| - 1] == a + front;
      assert 64 * (Value(a) * Pow64(|front|)) == Value(a) * Pow64(|b|);
    }
  }

  lemma {:induction false} LessTransitive(s: string, t: string, u: string)
    requires Less(s, t) && Less(t, u)
    ensures Less(s, u)
    decreases |s|
  {
    if s != "" && s[0] == t[0] == u[0] {
      LessTransitive(s[1..], t[1..], u[1..]);
    }
  }

  lemma {:induction false} LessIrreflexive(s: string)
    ensures !Less(s, s)
    decreases |s|
  {
    if s != "" {
      LessIrreflexive(s[1..]);
    }
  }

  // ----- the generator -----

  /** lastPushTime and lastRand. */
  datatype State = State(time: nat, rand: Digits) {
    predicate Valid() {
      |rand| == 12 && IsDigits(rand)
    }
  }

  /** A call: the clock and the twelve random digits. */
  datatype Call = Call(now: nat, random: Digits) {
    predicate Valid() {
      |random| == 12 && IsDigits(random)
    }
  }

  function Next(s: State, c: Call): (r: State)
    requires s.Valid() && c.Valid()
    ensures r.Valid()
  {
    State(c.now, if c.now == s.time then Bump(s.rand) else c.random)
  }

  function Id(s: State): string
    requires s.Valid()
  {
    Spell(Encode(s.time, 8) + s.rand)
  }

  /** The key of a call is above the previous key exactly if the clock went on, or stood still and the
      suffix of the previous key was not all 63. */
  predicate Advances(s: State, c: Call) {
    c.now > s.time || (c.now == s.time && !Saturated(s.rand))
  }

  lemma NextKeyOrder(s: State, c: Call)
    requires s.Valid() && c.Valid() && s.time < Pow64(8) && c.now < Pow64(8)
    ensures Less(Id(s), Id(Next(s, c))) <==> Advances(s, c)
  {
    var a, b := Encode(s.time, 8), Encode(c.now, 8);
    var r := Next(s, c).rand;
    SpellOrder(a + s.rand, b + r);
    ValueJoin(a, s.rand);
    ValueJoin(b, r);
    EncodeValue(s.time, 8);
    EncodeValue(c.now, 8);
    ValueBound(s.rand);
    ValueBound(r);
    BumpValue(s.rand);
    LeadingDecides(s.time, Value(s.rand), c.now, Value(r), Pow64(12));
  }

  /** The state after each call. */
  function States(s: State, calls: seq<Call>): (r: seq<State>)
    requires s.Valid() && forall i | 0 <= i < |calls| :: calls[i].Valid()
    ensures |r| == |calls| && forall i | 0 <= i < |r| :: r[i].Valid() && r[i].time == calls[i].now
    ensures forall i | 0 < i < |r| :: r[i] == Next(r[i - 1], calls[i])
  {
    if calls == [] then []
    else
      var front := States(s, calls[..|calls| - 1]);
      front + [Next(if front == [] then s else front[|front| - 1], calls[|calls| - 1])]
  }

  function Keys(s: State, calls: seq<Call>): (r: seq<string>)
    requires s.Valid() && forall i | 0 <= i < |calls| :: calls[i].Valid()
    ensures |r| == |calls| && forall i | 0 <= i < |r| :: r[i] == Id(States(s, calls)[i])
  {
    var states := States(s, calls);
    seq(|calls|, i requires 0 <= i < |calls| => Id(states[i]))
  }

  predicate Ascending(keys: seq<string>) {
    forall i, j | 0 <= i < j < |keys| :: Less(keys[i], keys[j])
  }

  lemma {:induction false} AscendingFromNeighbours(keys: seq<string>, i: nat, j: nat)
    requires forall k | 0 < k < |keys| :: Less(keys[k - 1], keys[k])
    requires i < j < |keys|
    ensures Less(keys[i], keys[j])
    decreases j - i
  {
    assert Less(keys[j - 1], keys[j]);
    if i + 1 < j {
      AscendingFromNeighbours(keys, i, j - 1);
      LessTransitive(keys[i], keys[j - 1], keys[j]);
    }
  }

  lemma NeighboursSuffice(keys: seq<string>)
    requires forall k | 0 < k < |keys| :: Less(keys[k - 1], keys[k])
    ensures Ascending(keys)
  {
    forall i, j | 0 <= i < j < |keys|
      ensures Less(keys[i], keys[j])
    {
      AscendingFromNeighbours(keys, i, j);
    }
  }

  lemma NeighbourOrder(s: State, calls: seq<Call>, i: nat)
    requires s.Valid() && forall i | 0 <= i < |calls| :: calls[i].Valid() && calls[i].now < Pow64(8)
    requires 0 < i < |calls|
    ensures Less(Keys(s, calls)[i - 1], Keys(s, calls)[i]) <==> Advances(States(s, calls)[i - 1], calls[i])
  {
    var states := States(s, calls);
    assert states[i] == Next(states[i - 1], calls[i]) && states[i - 1].time == calls[i - 1].now;
    NextKeyOrder(states[i - 1], calls[i]);
  }

  /** The keys of a run are strictly ascending exactly if every call after the first advances. */
  lemma RunOrder(s: State, calls: seq<Call>)
    requires s.Valid() && forall i | 0 <= i < |calls| :: calls[i].Valid() && calls[i].now < Pow64(8)
    ensures Ascending(Keys(s, calls)) <==>
      forall i | 0 < i < |calls| :: Advances(States(s, calls)[i - 1], calls[i])
  {
    var states, keys := States(s, calls), Keys(s, calls);
    if Ascending(keys) {
      forall i | 0 < i < |calls|
        ensures Advances(states[i - 1], calls[i])
      {
        NeighbourOrder(s, calls, i);
        assert Less(keys[i - 1], keys[i]);
      }
    }
    if forall i | 0 < i < |calls| :: Advances(states[i - 1], calls[i]) {
      forall i | 0 < i < |keys|
        ensures Less(keys[i - 1], keys[i])
      {
        NeighbourOrder(s, calls, i);
      }
      NeighboursSuffice(keys);
    }
  }

  /** Ascending keys are distinct. */
  lemma AscendingDistinct(keys: seq<string>)
    requires Ascending(keys)
    ensures forall i, j | 0 <= i < j < |keys| :: keys[i] != keys[j]
  {
    forall i, j | 0 <= i < j < |keys|
      ensures keys[i] != keys[j]
    {
      LessIrreflexive(keys[i]);
    }
  }

  /** Two calls in one millisecond after a suffix of twelve 63s: the second key is below the first. */
  lemma WrapBreaksOrder(now: nat, c: Call)
    requires c.Valid() && c.now == now < Pow64(8)
    ensures var s := State(now, seq(12, _ => 63));
      s.Valid() && !Less(Id(s), Id(Next(s, c))) && Less(Id(Next(s, c)), Id(s))
  {
    var s := State(now, seq(12, _ => 63));
    NextKeyOrder(s, c);
    var a, r := Encode(now, 8), Next(s, c).rand;
    SpellOrder(a + r, a + s.rand);
    ValueJoin(a, s.rand);
    ValueJoin(a, r);
    BumpValue(s.rand);
  }

  /** A key is one path segment. */
  lemma KeyIsSegment(s: State)
    requires s.Valid()
    ensures |Id(s)| == 20 && '/' !in Id(s)
  {
    var ds := Encode(s.time, 8) + s.rand;
    forall i | 0 <= i < 20
      ensures Id(s)[i] != '/'
    {
      AlphabetCodes(ds[i]);
    }
  }

  lemma EncodeStep(n: nat, width: nat, tail: Digits)
    ensures Encode(n, width + 1) + tail == Encode(n / 64, width) + ([n % 64] + tail)
  {
  }

  lemma SpellFront(d: nat, tail: Digits)
    requires d < 64 && IsDigits(tail)
    ensures IsDigits([d] + tail) && Spell([d] + tail) == [PUSH_CHARS[d]] + Spell(tail)
  {
  }

  /** Spelled digits, one part after the other. */
  lemma SpellJoin(s: string, a: Digits, b: Digits)
    requires IsDigits(a) && IsDigits(b) && |s| == |a| + |b| && s[..|a|] == Spell(a)
    requires forall k | 0 <= k < |b| :: s[|a| + k] == PUSH_CHARS[b[k]]
    ensures s == Spell(a + b)
  {
    forall i | 0 <= i < |s|
      ensures s[i] == Spell(a + b)[i]
    {
      if i < |a| {
        assert s[i] == s[..|a|][i];
      } else {
        assert s[|a| + (i - |a|)] == PUSH_CHARS[b[i - |a|]];
      }
    }
  }

  // ----- the program -----

  /** Random bytes as digits. */
  function Reduced(random: seq<nat>): (ds: Digits)
    ensures |ds| == |random| && IsDigits(ds)
  {
    seq(|random|, i requires 0 <= i < |random| => random[i] % 64)
  }

  /** A byte below 64 is its own digit, and each digit comes from four bytes. */
  lemma ReducedBytes(random: seq<nat>, i: nat, d: nat)
    requires i < |random| && random[i] < 256 && d < 64
    ensures Reduced(random)[i] == d <==> random[i] in {d, d + 64, d + 128, d + 192}
  {
  }

  class Generator {
    var lastPushTime: nat
    const lastRand: array<nat>

    ghost predicate Valid()
      reads this, lastRand
    {
      Model().Valid()
    }

    ghost function Model(): State
      reads this, lastRand
    {
      State(lastPushTime, lastRand[..])
    }

    constructor ()
      ensures Valid() && fresh(lastRand) && Model() == State(0, seq(12, _ => 0))
    {
      lastPushTime := 0;
      lastRand := new nat[12](_ => 0);
    }

    /** A new key, from the clock and twelve random bytes. */
    method Generate(now: nat, random: seq<nat>) returns (key: string)
      requires Valid() && |random| == 12
      modifies this, lastRand
      ensures Valid()
      ensures Model() == Next(old(Model()), Call(now, Reduced(random)))
      ensures key == Id(Model())
    {
      var dup := now == lastPushTime;
      lastPushTime := now;
      var id := new char[20];
      TimeDigits(now, id);
      assert lastRand[..] == old(lastRand[..]);
      if !dup {
        Randomize(random);
      } else {
        Increment();
      }
      SuffixDigits(id, Encode(now, 8));
      key := id[..];
    }

    /** The twelve characters of the suffix, behind those of the time. */
    method SuffixDigits(id: array<char>, ghost time: Digits)
      requires id.Length == 20 && lastRand.Length == 12 && IsDigits(lastRand[..])
      requires |time| == 8 && IsDigits(time) && id[..8] == Spell(time)
      modifies id
      ensures id[..] == Spell(time + lastRand[..])
    {
      ghost var rand := lastRand[..];
      var i := 0;
      while i < 12
        invariant 0 <= i <= 12 && id[..8] == Spell(time)
        invariant forall k | 0 <= k < i :: id[8 + k] == PUSH_CHARS[rand[k]]
      {
        id[8 + i] := PUSH_CHARS[lastRand[i]];
        i := i + 1;
      }
      SpellJoin(id[..], time, rand);
    }

    method Randomize(random: seq<nat>)
      requires lastRand.Length == 12 && |random| == 12
      modifies lastRand
      ensures lastRand[..] == Reduced(random)
    {
      var i := 0;
      while i < 12
        invariant 0 <= i <= 12
        invariant forall k | 0 <= k < i :: lastRand[k] == random[k] % 64
      {
        lastRand[i] := random[i] % 64;
        i := i + 1;
      }
    }

    /** The eight characters of the time, from the last one on. */
    method TimeDigits(time: nat, id: array<char>)
      requires id.Length == 20
      modifies id
      ensures id[..8] == Spell(Encode(time, 8))
    {
      var now := time;
      var i := 7;
      ghost var tail: Digits := [];
      while i >= 0
        invariant -1 <= i <= 7 && |tail| == 7 - i && IsDigits(tail)
        invariant Encode(time, 8) == Encode(now, i + 1) + tail
        invariant id[i + 1..8] == Spell(tail)
      {
        id[i] := PUSH_CHARS[now % 64];
        EncodeStep(now, i, tail);
        SpellFront(now % 64, tail);
        assert id[i..8] == [id[i]] + id[i + 1..8];
        tail := [now % 64] + tail;
        now := now / 64;
        i := i - 1;
      }
      assert Encode(time, 8) == tail;
    }

    /** One more in the last digit that is not 63, and 0 behind it. */
    method Increment()
      requires lastRand.Length == 12 && IsDigits(lastRand[..])
      modifies lastRand
      ensures lastRand[..] == Bump(old(lastRand[..]))
    {
      ghost var was := lastRand[..];
      assert was[..12] == was;
      var i := 11;
      while i >= 0
        invariant -1 <= i <= 11
        invariant lastRand[..i + 1] == was[..i + 1]
        invariant Bump(was) == Bump(was[..i + 1]) + lastRand[i + 1..]
      {
        assert was[..i + 1][..i] == was[..i];
        if lastRand[i] != 63 {
          lastRand[i] := lastRand[i] + 1;
          assert lastRand[..] == was[..i] + [was[i] + 1] + lastRand[i + 1..];
          return;
        }
        lastRand[i] := 0;
        assert Bump(was[..i + 1]) == Bump(was[..i]) + [0];
        i := i - 1;
      }
      assert lastRand[0..] == lastRand[..];
    }
  }
}
