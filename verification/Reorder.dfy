/** Histories that are carried out in another order than they were written in.  An order lists positions of the
    history. */
module Reorder {
  import opened Paths
  import opened JsonTree
  import opened TreeLaws

  predicate Within(order: seq<nat>, n: nat) {
    forall i | 0 <= i < |order| :: order[i] < n
  }

  function Pick<T>(xs: seq<T>, order: seq<nat>): seq<T>
    requires Within(order, |xs|)
  {
    seq(|order|, i requires 0 <= i < |order| => xs[order[i]])
  }

  predicate Distinct(order: seq<nat>) {
    forall i, j | 0 <= i < j < |order| :: order[i] != order[j]
  }

  predicate Ascending(order: seq<nat>) {
    forall i, j | 0 <= i < j < |order| :: order[i] < order[j]
  }

  predicate Before(order: seq<nat>, x: nat, y: nat) {
    exists i, j :: 0 <= i < j < |order| && order[i] == x && order[j] == y
  }

  /** Neither of the two operations is above or below the other. */
  predicate Independent(ops: seq<Op>, x: nat, y: nat) {
    x < |ops| && y < |ops| && !Comparable(ops[x].path, ops[y].path)
  }

  /** The two orders list the same positions, and operations listed the other way round are independent. */
  ghost predicate Reordered(ops: seq<Op>, a: seq<nat>, b: seq<nat>) {
    && Within(a, |ops|) && Within(b, |ops|) && Distinct(a) && Distinct(b)
    && (forall x :: x in a <==> x in b)
    && (forall x, y | Before(a, x, y) && Before(b, y, x) :: Independent(ops, x, y))
  }

  /** An operation may wait for operations it is independent of. */
  lemma {:induction false} Waits(op: Op, after: seq<Op>, root: Fields)
    requires forall i | 0 <= i < |after| :: !Comparable(op.path, after[i].path)
    ensures Apply(op, Run(after, root)) == Run(after, Apply(op, root))
    decreases |after|
  {
    if after != [] {
      var front := after[..|after| - 1];
      Commute(op, after[|after| - 1], Run(front, root));
      Waits(op, front, root);
    }
  }

  /** One position moved to the end of an order. */
  lemma MoveLast(ops: seq<Op>, b: seq<nat>, k: nat, root: Fields)
    requires Within(b, |ops|) && k < |b|
    requires forall j | k < j < |b| :: Independent(ops, b[k], b[j])
    ensures var rest := b[..k] + b[k + 1..];
      Run(Pick(ops, b), root) == Apply(ops[b[k]], Run(Pick(ops, rest), root))
  {
    var op, start, after := ops[b[k]], Pick(ops, b[..k]), Pick(ops, b[k + 1..]);
    assert Pick(ops, b) == start + [op] + after;
    assert Pick(ops, b[..k] + b[k + 1..]) == start + after;
    RunAppend(start + [op], after, root);
    RunAppend(start, after, root);
    assert (start + [op])[..|start|] == start;
    forall i | 0 <= i < |after|
      ensures !Comparable(op.path, after[i].path)
    {
      assert Independent(ops, b[k], b[k + 1 + i]);
    }
    Waits(op, after, Run(start, root));
  }

  lemma BeforeLast(a: seq<nat>, x: nat)
    requires a != [] && x in a && x != a[|a| - 1]
    ensures Before(a, x, a[|a| - 1])
  {
  }

  lemma BeforePart(a: seq<nat>, k: nat, x: nat, y: nat)
    requires k < |a| && Before(a[..k] + a[k + 1..], x, y)
    ensures Before(a, x, y)
  {
    var part := a[..k] + a[k + 1..];
    var i, j :| 0 <= i < j < |part| && part[i] == x && part[j] == y;
    var i', j' := if i < k then i else i + 1, if j < k then j else j + 1;
    assert a[i'] == x && a[j'] == y;
  }

  lemma WithoutOne(a: seq<nat>, k: nat)
    requires k < |a| && Distinct(a)
    ensures var part := a[..k] + a[k + 1..];
      Distinct(part) && forall x :: x in part <==> x in a && x != a[k]
  {
    var part := a[..k] + a[k + 1..];
    forall x
      ensures x in part <==> x in a && x != a[k]
    {
      if x in a && x != a[k] {
        var i :| 0 <= i < |a| && a[i] == x;
        assert part[if i < k then i else i - 1] == x;
      }
    }
  }

  /** Taking what `a` lists last out of both orders. */
  lemma TakeLast(ops: seq<Op>, a: seq<nat>, b: seq<nat>, k: nat)
    requires Reordered(ops, a, b) && a != [] && k < |b| && b[k] == a[|a| - 1]
    ensures Reordered(ops, a[..|a| - 1], b[..k] + b[k + 1..])
  {
    var n := |a| - 1;
    var front, rest := a[..n], b[..k] + b[k + 1..];
    assert a[..n] + a[n + 1..] == front;
    WithoutOne(a, n);
    WithoutOne(b, k);
    forall x, y | Before(front, x, y) && Before(rest, y, x)
      ensures Independent(ops, x, y)
    {
      BeforePart(a, n, x, y);
      BeforePart(b, k, y, x);
    }
  }

  lemma BehindLast(ops: seq<Op>, a: seq<nat>, b: seq<nat>, k: nat, j: nat)
    requires Reordered(ops, a, b) && a != [] && k < j < |b| && b[k] == a[|a| - 1]
    ensures Independent(ops, b[k], b[j])
  {
    assert b[j] in b;
    BeforeLast(a, b[j]);
    assert Before(b, b[k], b[j]);
  }

  /** Such orders have the same effect. */
  lemma {:induction false} SameEffect(ops: seq<Op>, a: seq<nat>, b: seq<nat>, root: Fields)
    requires Reordered(ops, a, b)
    ensures Run(Pick(ops, a), root) == Run(Pick(ops, b), root)
    decreases |a|
  {
    assert b != [] ==> b[0] in b;
    if a != [] {
      var n := |a| - 1;
      assert a[n] in a;
      var k :| 0 <= k < |b| && b[k] == a[n];
      forall j | k < j < |b|
        ensures Independent(ops, b[k], b[j])
      {
        BehindLast(ops, a, b, k, j);
      }
      MoveLast(ops, b, k, root);
      TakeLast(ops, a, b, k);
      SameEffect(ops, a[..n], b[..k] + b[k + 1..], root);
      assert Pick(ops, a)[..n] == Pick(ops, a[..n]);
    }
  }

  // ----- parts of an order -----

  lemma PickJoin<T>(xs: seq<T>, a: seq<nat>, b: seq<nat>)
    requires Within(a, |xs|) && Within(b, |xs|)
    ensures Within(a + b, |xs|) && Pick(xs, a + b) == Pick(xs, a) + Pick(xs, b)
  {
  }

  lemma PickMore(ops: seq<Op>, a: seq<nat>, b: seq<nat>, root: Fields)
    requires Within(a, |ops|) && Within(b, |ops|)
    ensures Within(a + b, |ops|) && Run(Pick(ops, a + b), root) == Run(Pick(ops, b), Run(Pick(ops, a), root))
  {
    PickJoin(ops, a, b);
    RunAppend(Pick(ops, a), Pick(ops, b), root);
  }

  function Range(a: nat, b: nat): seq<nat>
    requires a <= b
  {
    seq(b - a, i requires 0 <= i => a + i)
  }

  /** The positions of the order that are in `keep`. */
  function Only(order: seq<nat>, keep: set<nat>): seq<nat> {
    if order == [] then []
    else Only(order[..|order| - 1], keep) + if order[|order| - 1] in keep then [order[|order| - 1]] else []
  }

  lemma {:induction false} OnlyHas(order: seq<nat>, keep: set<nat>)
    ensures forall x :: x in Only(order, keep) <==> x in order && x in keep
    decreases |order|
  {
    if order != [] {
      OnlyHas(order[..|order| - 1], keep);
      assert order == order[..|order| - 1] + [order[|order| - 1]];
    }
  }

  lemma OnlyLast(order: seq<nat>, x: nat, keep: set<nat>)
    ensures Only(order + [x], keep) == Only(order, keep) + if x in keep then [x] else []
  {
    assert (order + [x])[..|order|] == order;
  }

  lemma {:induction false} OnlyAppend(a: seq<nat>, b: seq<nat>, keep: set<nat>)
    ensures Only(a + b, keep) == Only(a, keep) + Only(b, keep)
    decreases |b|
  {
    if b == [] {
      assert a + b == a;
    } else {
      assert a + b == a + b[..|b| - 1] + [b[|b| - 1]];
      OnlyLast(a + b[..|b| - 1], b[|b| - 1], keep);
      OnlyAppend(a, b[..|b| - 1], keep);
    }
  }

  lemma {:induction false} OnlyAscending(order: seq<nat>, keep: set<nat>)
    requires Ascending(order)
    ensures Ascending(Only(order, keep))
    decreases |order|
  {
    if order != [] {
      var front, last := order[..|order| - 1], order[|order| - 1];
      var kept := Only(front, keep);
      OnlyAscending(front, keep);
      OnlyHas(front, keep);
      forall k | 0 <= k < |kept|
        ensures kept[k] < last
      {
        var x := kept[k];
        assert x in kept;
        var i :| 0 <= i < |front| && front[i] == x;
        assert order[i] < order[|order| - 1];
      }
    }
  }

  lemma OnlyBefore(order: seq<nat>, keep: set<nat>, x: nat, y: nat)
    requires Before(order, x, y) && x in keep && y in keep
    ensures Before(Only(order, keep), x, y)
  {
    var i, j :| 0 <= i < j < |order| && order[i] == x && order[j] == y;
    var a, b := order[..j], order[j..];
    assert order == a + b && a[i] == x && b[0] == y;
    OnlyAppend(a, b, keep);
    OnlyHas(a, keep);
    OnlyHas(b, keep);
    BeforeJoined(Only(a, keep), Only(b, keep), x, y);
  }

  lemma BeforeJoined(a: seq<nat>, b: seq<nat>, x: nat, y: nat)
    requires x in a && y in b
    ensures Before(a + b, x, y)
  {
    var i :| 0 <= i < |a| && a[i] == x;
    var j :| 0 <= j < |b| && b[j] == y;
    assert (a + b)[i] == x && (a + b)[|a| + j] == y;
  }

  lemma {:induction false} OnlyDistinct(order: seq<nat>, keep: set<nat>)
    requires Distinct(order)
    ensures Distinct(Only(order, keep))
    decreases |order|
  {
    if order != [] {
      OnlyDistinct(order[..|order| - 1], keep);
      OnlyHas(order[..|order| - 1], keep);
    }
  }

  /** Two ascending parts, interleaved by size, and one behind the other. */
  lemma Parts(ops: seq<Op>, whole: seq<nat>, b: seq<nat>, e: seq<nat>)
    requires Within(whole, |ops|) && Ascending(whole) && Ascending(b) && Ascending(e)
    requires forall x :: x in whole <==> x in b || x in e
    requires forall x :: !(x in b && x in e)
    requires forall x, y | x in e && y in b && x < y :: Independent(ops, x, y)
    ensures Reordered(ops, whole, b + e)
  {
    var ab := b + e;
    assert forall i | 0 <= i < |ab| :: ab[i] in b || ab[i] in e;
    forall i, j | 0 <= i < j < |ab|
      ensures ab[i] != ab[j]
    {
      assert i < |b| <= j ==> ab[i] in b && ab[j] in e;
    }
    assert forall x :: x in ab <==> x in b || x in e;
    forall x, y | Before(whole, x, y) && Before(ab, y, x)
      ensures Independent(ops, x, y)
    {
      var i, j :| 0 <= i < j < |ab| && ab[i] == y && ab[j] == x;
      assert x < y;
      assert i < |b| <= j;
      assert y in b && x in e;
    }
  }

  /** The positions of `sent` keep their order, except behind later ones they are independent of. */
  ghost predicate OrderKept(ops: seq<Op>, all: seq<nat>, sent: seq<nat>) {
    forall x, y | x in all && y in all && x < y && x in sent && !Before(sent, x, y) :: Independent(ops, x, y)
  }

  lemma EarlyParts(ops: seq<Op>, k1: seq<nat>, k2: seq<nat>, b: seq<nat>, e: seq<nat>, sent: seq<nat>)
    requires Within(k1, |ops|) && Ascending(k1) && Ascending(b) && Ascending(e)
    requires forall x :: x in b <==> x in k1 && x !in sent
    requires forall x :: x in e <==> x in k1 && x in sent
    requires OrderKept(ops, k1 + k2, sent)
    ensures Reordered(ops, k1, b + e)
  {
    forall x, y | x in e && y in b && x < y
      ensures Independent(ops, x, y)
    {
      assert x in k1 + k2 && y in k1 + k2;
      assert !Before(sent, x, y);
    }
    Parts(ops, k1, b, e);
  }

  /** A history of which the part before `snap` was carried out, of that only the positions in `keep`; then it is
      carried out in the order `sent`, which may have positions before `snap` again.  The effect is that of the
      whole history in its own order, if each position in `sent` is independent of the later ones that
      do not come after it. */
  lemma ReplayReordered(ops: seq<Op>, m: nat, snap: nat, keep: set<nat>, sent: seq<nat>, root: Fields)
    requires m <= snap <= |ops| && Distinct(sent)
    requires forall x | x in sent :: m <= x < |ops| && x in keep
    requires forall x | snap <= x < |ops| && x in keep :: x in sent
    requires OrderKept(ops, Only(Range(m, |ops|), keep), sent)
    ensures Within(Only(Range(m, snap), keep), |ops|) && Within(Only(Range(m, |ops|), keep), |ops|)
    ensures Within(sent, |ops|)
    ensures Run(Pick(ops, sent), Run(Pick(ops, Only(Range(m, snap), keep)), root))
         == Run(Pick(ops, Only(Range(m, |ops|), keep)), root)
  {
    var k1, k2 := Only(Range(m, snap), keep), Only(Range(snap, |ops|), keep);
    SplitRange(m, snap, |ops|, keep);
    Listed(m, snap, keep);
    Listed(snap, |ops|, keep);
    Bounded(sent, |ops|);
    var again, first := set x | x in sent, set x | x in k1 && x !in sent;
    var b, e := Only(k1, first), Only(k1, again);
    OnlyHas(k1, first);
    OnlyHas(k1, again);
    OnlyAscending(k1, first);
    OnlyAscending(k1, again);
    Bounded(e, |ops|);
    EarlyParts(ops, k1, k2, b, e, sent);
    SentAgain(ops, k1, b, e, root);
    LateOrder(ops, snap, e, k1, k2, sent);
    LateReplay(ops, k1, e, k2, sent, root);
  }

  lemma SplitRange(a: nat, b: nat, c: nat, keep: set<nat>)
    requires a <= b <= c
    ensures Only(Range(a, c), keep) == Only(Range(a, b), keep) + Only(Range(b, c), keep)
  {
    assert Range(a, c) == Range(a, b) + Range(b, c);
    OnlyAppend(Range(a, b), Range(b, c), keep);
  }

  lemma Bounded(order: seq<nat>, n: nat)
    requires forall x | x in order :: x < n
    ensures Within(order, n)
  {
    assert forall i | 0 <= i < |order| :: order[i] in order;
  }

  /** Carrying out a part of the history again that was independent of what it was behind changes nothing. */
  lemma SentAgain(ops: seq<Op>, k1: seq<nat>, b: seq<nat>, e: seq<nat>, root: Fields)
    requires Within(k1, |ops|) && Within(e, |ops|) && Reordered(ops, k1, b + e)
    ensures Run(Pick(ops, e), Run(Pick(ops, k1), root)) == Run(Pick(ops, k1), root)
  {
    SameEffect(ops, k1, b + e, root);
    assert forall i | 0 <= i < |b| :: b[i] == (b + e)[i];
    PickMore(ops, b, e, root);
    Replay(Pick(ops, e), Run(Pick(ops, b), root));
  }

  lemma LateReplay(ops: seq<Op>, k1: seq<nat>, e: seq<nat>, k2: seq<nat>, sent: seq<nat>, root: Fields)
    requires Within(k1, |ops|) && Within(e, |ops|) && Within(k2, |ops|) && Reordered(ops, e + k2, sent)
    requires Run(Pick(ops, e), Run(Pick(ops, k1), root)) == Run(Pick(ops, k1), root)
    ensures Run(Pick(ops, sent), Run(Pick(ops, k1), root)) == Run(Pick(ops, k1 + k2), root)
  {
    var t := Run(Pick(ops, k1), root);
    SameEffect(ops, e + k2, sent, t);
    PickMore(ops, e, k2, t);
    PickMore(ops, k1, k2, root);
  }

  lemma Listed(a: nat, b: nat, keep: set<nat>)
    requires a <= b
    ensures Ascending(Only(Range(a, b), keep)) && Within(Only(Range(a, b), keep), b)
    ensures forall x :: x in Only(Range(a, b), keep) <==> a <= x < b && x in keep
  {
    OnlyHas(Range(a, b), keep);
    OnlyAscending(Range(a, b), keep);
    forall x
      ensures x in Range(a, b) <==> a <= x < b
    {
      assert a <= x < b ==> Range(a, b)[x - a] == x;
    }
    var o := Only(Range(a, b), keep);
    assert forall i | 0 <= i < |o| :: o[i] in o;
  }

  lemma LateOrder(ops: seq<Op>, snap: nat, e: seq<nat>, k1: seq<nat>, k2: seq<nat>, sent: seq<nat>)
    requires Ascending(e) && Ascending(k2) && Distinct(sent) && Within(sent, |ops|)
    requires (forall x | x in e :: x in k1 && x < snap) && (forall x | x in k2 :: snap <= x)
    requires forall x :: x in sent <==> x in e || x in k2
    requires OrderKept(ops, k1 + k2, sent)
    ensures Reordered(ops, e + k2, sent)
  {
    var ek := e + k2;
    Joins(e, k2, snap);
    assert forall x :: x in ek <==> x in e || x in k2;
    Bounded(ek, |ops|);
    forall x, y | Before(ek, x, y) && Before(sent, y, x)
      ensures Independent(ops, x, y)
    {
      assert x in ek && y in ek && x < y;
      assert x in k1 + k2 && y in k1 + k2;
      assert !Before(sent, x, y);
    }
  }

  lemma Joins(e: seq<nat>, k2: seq<nat>, snap: nat)
    requires Ascending(e) && Ascending(k2)
    requires (forall x | x in e :: x < snap) && (forall x | x in k2 :: snap <= x)
    ensures Ascending(e + k2)
  {
    forall i, j | 0 <= i < j < |e + k2|
      ensures (e + k2)[i] < (e + k2)[j]
    {
      if i < |e| <= j {
        assert e[i] in e && k2[j - |e|] in k2;
      }
    }
  }

  // ----- what was listed late -----

  /** `x` is listed late, and `y` is not behind it: then `y` is listed before it. */
  lemma Overtaking(order: seq<nat>, from: nat, keep: set<nat>, x: nat, y: nat) returns (i: nat, j: nat)
    requires from <= |order| && x in order[from..] && y in order && x != y && x in keep && y in keep
    requires !Before(Only(order[from..], keep), x, y)
    ensures i < j < |order| && from <= j && order[i] == y && order[j] == x
  {
    var late := order[from..];
    var j' :| 0 <= j' < |late| && late[j'] == x;
    i :| 0 <= i < |order| && order[i] == y;
    j := from + j';
    if j < i {
      assert late[i - from] == y;
      assert Before(late, x, y);
      OnlyBefore(late, keep, x, y);
    }
  }

  /** What an order that lists everything below `n` lists late. */
  lemma ListedLate(order: seq<nat>, from: nat, m: nat, snap: nat, n: nat)
    requires Distinct(order) && Within(order, n) && from <= |order| && Within(order[..from], snap)
    requires (forall i: nat | i < m :: i in order[..from]) && (forall i: nat | i < n :: i in order)
    ensures forall x | x in order[from..] :: m <= x < n
    ensures forall x: nat | snap <= x < n :: x in order[from..]
  {
    var early, late := order[..from], order[from..];
    assert order == early + late;
    forall x | x in late
      ensures x !in early && x < n
    {
      var j :| 0 <= j < |late| && late[j] == x;
      assert order[from + j] == x;
    }
    forall x: nat | snap <= x < n
      ensures x in late
    {
      assert x in order;
      assert x !in early;
    }
    forall x | x in late
      ensures m <= x
    {
      assert x < m ==> x in early;
    }
  }

  lemma RangeLast(a: nat, b: nat, keep: set<nat>)
    requires a <= b
    ensures Only(Range(a, b + 1), keep) == Only(Range(a, b), keep) + if b in keep then [b] else []
  {
    assert Range(a, b + 1) == Range(a, b) + [b];
    OnlyLast(Range(a, b), b, keep);
  }

  /** What is listed after the position `r` is what is greater, of the positions in `keep`. */
  lemma ListedAfter(order: seq<nat>, r: nat, n: nat, keep: set<nat>)
    requires r < |order| && forall y: nat | y < n :: y in order
    requires forall i: nat | i < |order| && i != r && order[i] in keep :: order[r] < order[i] <==> r < i
    ensures forall y | y in order[r + 1..] && y in keep :: order[r] < y
    ensures forall y | order[r] < y < n && y in keep :: y in order[r + 1..]
  {
    var late := order[r + 1..];
    forall y | y in late && y in keep
      ensures order[r] < y
    {
      var k :| 0 <= k < |late| && late[k] == y;
      assert order[r + 1 + k] == y;
    }
    forall y: nat | order[r] < y < n && y in keep
      ensures y in late
    {
      assert y in order;
      var i :| 0 <= i < |order| && order[i] == y;
      assert late[i - r - 1] == y;
    }
  }
}
