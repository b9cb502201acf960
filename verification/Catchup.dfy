/** A client that is given the events of a history: each at most once, perhaps in another order than the writes, some
    of writes that its copy holds already, and some with later writes in their data. */
module Catchup {
  import opened Paths
  import opened JsonTree
  import opened TreeLaws
  import opened Reorder

  /** An event that the client was given: the position of its write, and the later writes that were in its data
      already. */
  datatype Receipt = Receipt(i: nat, hits: seq<nat>)

  /** The writes in the order in which they were committed, and the positions of those whose events are out, in the
      order of the events.  The client is sent events from `from` on. */
  datatype Log = Log(ops: seq<Op>, published: seq<nat>, from: nat)

  /** A stream on `q` is sent the event of the operation. */
  predicate SentAt(q: Path, op: Op) {
    Related(q, op.path)
  }

  /** The positions of the operations that are sent. */
  function SentOf(q: Path, ops: seq<Op>): set<nat> {
    set i: nat | i < |ops| && SentAt(q, ops[i])
  }

  /** The operation is at the root exactly if the stream is. */
  predicate AlignedAt(q: Path, op: Op) {
    q == [] <==> op.path == []
  }

  predicate AlignedFrom(q: Path, ops: seq<Op>, m: nat) {
    forall i | m <= i < |ops| :: AlignedAt(q, ops[i])
  }

  lemma RunLast(ops: seq<Op>, op: Op, tree: Fields)
    ensures Run(ops + [op], tree) == Apply(op, Run(ops, tree))
  {
    assert (ops + [op])[..|ops|] == ops;
  }

  lemma PickLast(ops: seq<Op>, order: seq<nat>, i: nat)
    requires Within(order, |ops|) && i < |ops|
    ensures Within(order + [i], |ops|) && Pick(ops, order + [i]) == Pick(ops, order) + [ops[i]]
  {
  }

  lemma {:induction false} RunAgrees(ops: seq<Op>, s: Fields, t: Fields, q: Path)
    requires Fetch(s, q) == Fetch(t, q)
    ensures Fetch(Run(ops, s), q) == Fetch(Run(ops, t), q)
    decreases |ops|
  {
    if ops != [] {
      var front := ops[..|ops| - 1];
      RunAgrees(front, s, t, q);
      AgreementKept(ops[|ops| - 1], Run(front, s), Run(front, t), q);
    }
  }

  // ----- the writes that are sent do what all do -----

  /** An aligned write whose event is not sent leaves the streamed value alone. */
  lemma SilentWrite(q: Path, op: Op, tree: Fields)
    requires AlignedAt(q, op) && !SentAt(q, op)
    ensures Fetch(Apply(op, tree), q) == Fetch(tree, q)
  {
    Frame(op, tree, q);
  }

  /** For the streamed value the writes at the positions in `sent` do what all from `a` to `b` do. */
  predicate Suffice(q: Path, ops: seq<Op>, sent: seq<nat>, a: nat, b: nat, tree: Fields)
    requires a <= b <= |ops|
  {
    Within(sent, |ops|) && Fetch(Run(Pick(ops, sent), tree), q) == Fetch(Run(ops[a..b], tree), q)
  }

  lemma OneMoreSuffices(q: Path, ops: seq<Op>, sent: seq<nat>, a: nat, b: nat, tree: Fields)
    requires a <= b < |ops| && AlignedAt(q, ops[b]) && Suffice(q, ops, sent, a, b, tree)
    ensures Suffice(q, ops, sent + if b in SentOf(q, ops) then [b] else [], a, b + 1, tree)
  {
    var op, some, all := ops[b], Pick(ops, sent), ops[a..b];
    assert ops[a..b + 1] == all + [op];
    RunLast(all, op, tree);
    if b in SentOf(q, ops) {
      PickLast(ops, sent, b);
      RunLast(some, op, tree);
      AgreementKept(op, Run(some, tree), Run(all, tree), q);
    } else {
      assert sent + [] == sent;
      SilentWrite(q, op, Run(all, tree));
    }
  }

  /** Those that are sent do. */
  lemma {:induction false} SentSuffice(q: Path, ops: seq<Op>, a: nat, b: nat, sent: seq<nat>, tree: Fields)
    requires a <= b <= |ops| && AlignedFrom(q, ops, a) && sent == Only(Range(a, b), SentOf(q, ops))
    ensures Suffice(q, ops, sent, a, b, tree)
    decreases b - a
  {
    if a == b {
      assert Range(a, b) == [] && Pick(ops, []) == [] && ops[a..b] == [];
    } else {
      var last := b - 1;
      var fewer := Only(Range(a, last), SentOf(q, ops));
      SentSuffice(q, ops, a, last, fewer, tree);
      RangeLast(a, last, SentOf(q, ops));
      OneMoreSuffices(q, ops, fewer, a, last, tree);
    }
  }

  lemma FromHere(ops: seq<Op>, m: nat, n: nat, tree: Fields)
    requires m <= n <= |ops|
    ensures Run(ops[m..n], Run(ops[..m], tree)) == Run(ops[..n], tree)
  {
    assert ops[..n] == ops[..m] + ops[m..n];
    RunAppend(ops[..m], ops[m..n], tree);
  }

  // ----- writes that are in the data of an earlier event already -----

  /** All writes that have gone into the copy, in order. */
  function Flat(got: seq<Receipt>): seq<nat> {
    if got == [] then [] else [got[0].i] + got[0].hits + Flat(got[1..])
  }

  function Ids(got: seq<Receipt>): seq<nat> {
    seq(|got|, k requires 0 <= k < |got| => got[k].i)
  }

  /** The later writes in a receipt come after its write, and their paths are at or below its path. */
  predicate Behind(ops: seq<Op>, r: Receipt) {
    r.i < |ops| && forall h | h in r.hits :: r.i < h < |ops| && ops[r.i].path <= ops[h].path
  }

  lemma {:induction false} FlatAppend(a: seq<Receipt>, b: seq<Receipt>)
    ensures Flat(a + b) == Flat(a) + Flat(b)
    decreases |a|
  {
    if a == [] {
      assert a + b == b;
    } else {
      assert (a + b)[1..] == a[1..] + b && (a + b)[0] == a[0];
      FlatAppend(a[1..], b);
      Regroup([a[0].i] + a[0].hits, Flat(a[1..]), Flat(b));
    }
  }

  lemma Regroup<T>(a: seq<T>, b: seq<T>, c: seq<T>)
    ensures a + (b + c) == a + b + c
  {
  }

  lemma FlatLast(got: seq<Receipt>, r: Receipt)
    ensures Flat(got + [r]) == Flat(got) + ([r.i] + r.hits) && Ids(got + [r]) == Ids(got) + [r.i]
  {
    FlatAppend(got, [r]);
    assert [r][1..] == [] && [r.i] + r.hits + Flat([]) == [r.i] + r.hits;
  }

  lemma PartsWithin(a: seq<nat>, b: seq<nat>, c: seq<nat>, n: nat)
    requires Within(a + b + c, n)
    ensures Within(a, n) && Within(b, n) && Within(c, n)
  {
    assert forall i | 0 <= i < |a| :: a[i] == (a + b + c)[i];
    assert forall i | 0 <= i < |b| :: b[i] == (a + b + c)[|a| + i];
    assert forall i | 0 <= i < |c| :: c[i] == (a + b + c)[|a| + |b| + i];
  }

  /** An operation that comes again need not be done before. */
  lemma Absorbed(op: Op, rest: seq<Op>, root: Fields)
    requires op in rest
    ensures Run(rest, Apply(op, root)) == Run(rest, root)
  {
    var i :| 0 <= i < |rest| && rest[i] == op;
    var a, b := rest[..i], rest[i + 1..];
    assert rest == a + [op] + b;
    Idempotent(op, root);
    CongruentRun(op, a, Apply(op, root), root);
    RunLast(a, op, Apply(op, root));
    RunLast(a, op, root);
    RunAppend(a + [op], b, Apply(op, root));
    RunAppend(a + [op], b, root);
  }

  /** A write that is sent comes again in `rest`, and one that is not leaves the streamed value alone. */
  predicate Covered(ops: seq<Op>, q: Path, h: nat, rest: seq<nat>) {
    h < |ops| && if SentAt(q, ops[h]) then h in rest else AlignedAt(q, ops[h])
  }

  lemma HitAbsorbed(ops: seq<Op>, q: Path, h: nat, rest: seq<nat>, copy: Fields)
    requires Within(rest, |ops|) && Covered(ops, q, h, rest)
    ensures Fetch(Run(Pick(ops, rest), Apply(ops[h], copy)), q) == Fetch(Run(Pick(ops, rest), copy), q)
  {
    var op, again := ops[h], Pick(ops, rest);
    if SentAt(q, op) {
      var k :| 0 <= k < |rest| && rest[k] == h;
      assert again[k] == op;
      Absorbed(op, again, copy);
    } else {
      SilentWrite(q, op, copy);
      RunAgrees(again, Apply(op, copy), copy, q);
    }
  }

  lemma {:induction false} HitsAbsorbed(ops: seq<Op>, q: Path, hits: seq<nat>, rest: seq<nat>, copy: Fields)
    requires Within(rest, |ops|) && Within(hits, |ops|)
    requires forall k | 0 <= k < |hits| :: Covered(ops, q, hits[k], rest)
    ensures Fetch(Run(Pick(ops, rest), Run(Pick(ops, hits), copy)), q) == Fetch(Run(Pick(ops, rest), copy), q)
    decreases |hits|
  {
    if hits == [] {
      assert Pick(ops, hits) == [];
    } else {
      var front, h := hits[..|hits| - 1], hits[|hits| - 1];
      HitsAbsorbed(ops, q, front, rest, copy);
      assert hits == front + [h];
      PickLast(ops, front, h);
      RunLast(Pick(ops, front), ops[h], copy);
      HitAbsorbed(ops, q, h, rest, Run(Pick(ops, front), copy));
    }
  }

  /** Each receipt's later writes are covered by the receipts after it. */
  predicate AllCovered(ops: seq<Op>, q: Path, got: seq<Receipt>) {
    forall k, j | 0 <= k < |got| && 0 <= j < |got[k].hits| :: Covered(ops, q, got[k].hits[j], Ids(got[k + 1..]))
  }

  lemma FlatRun(ops: seq<Op>, got: seq<Receipt>, copy: Fields)
    requires got != [] && Within(Flat(got), |ops|)
    ensures var r, rest := got[0], Flat(got[1..]);
      && Within([r.i], |ops|) && Within(r.hits, |ops|) && Within(rest, |ops|)
      && Run(Pick(ops, Flat(got)), copy) == Run(Pick(ops, rest), Run(Pick(ops, r.hits), Run(Pick(ops, [r.i]), copy)))
  {
    var r, rest := got[0], Flat(got[1..]);
    PartsWithin([r.i], r.hits, rest, |ops|);
    PickMore(ops, [r.i], r.hits, copy);
    PickMore(ops, [r.i] + r.hits, rest, copy);
  }

  lemma IdsRun(ops: seq<Op>, got: seq<Receipt>, copy: Fields)
    requires got != [] && Within(Ids(got), |ops|)
    ensures var i, rest := got[0].i, Ids(got[1..]);
      && i < |ops| && Within(rest, |ops|)
      && Run(Pick(ops, Ids(got)), copy) == Run(Pick(ops, rest), Run(Pick(ops, [i]), copy))
  {
    var i, rest := got[0].i, Ids(got[1..]);
    assert Ids(got) == [i] + rest;
    PartsWithin([i], rest, [], |ops|);
    PickMore(ops, [i], rest, copy);
  }

  /** For the streamed value it does not matter which later writes were in the data of an event already. */
  lemma {:induction false} FlatAbsorbed(ops: seq<Op>, q: Path, got: seq<Receipt>, copy: Fields)
    requires Within(Flat(got), |ops|) && Within(Ids(got), |ops|) && AllCovered(ops, q, got)
    ensures Fetch(Run(Pick(ops, Flat(got)), copy), q) == Fetch(Run(Pick(ops, Ids(got)), copy), q)
    decreases |got|
  {
    if got != [] {
      var r, rest := got[0], got[1..];
      RestCovered(ops, q, got);
      FlatRun(ops, got, copy);
      IdsRun(ops, got, copy);
      var first := Run(Pick(ops, [r.i]), copy);
      FlatAbsorbed(ops, q, rest, Run(Pick(ops, r.hits), first));
      HitsAbsorbed(ops, q, r.hits, Ids(rest), first);
    }
  }

  lemma RestCovered(ops: seq<Op>, q: Path, got: seq<Receipt>)
    requires got != [] && AllCovered(ops, q, got) && Within(Ids(got), |ops|)
    ensures AllCovered(ops, q, got[1..]) && Within(Ids(got[1..]), |ops|)
    ensures forall j | 0 <= j < |got[0].hits| :: Covered(ops, q, got[0].hits[j], Ids(got[1..]))
  {
    var rest := got[1..];
    forall k, j | 0 <= k < |rest| && 0 <= j < |rest[k].hits|
      ensures Covered(ops, q, rest[k].hits[j], Ids(rest[k + 1..]))
    {
      assert rest[k] == got[k + 1] && rest[k + 1..] == got[k + 2..];
    }
    forall k | 0 <= k < |rest|
      ensures Ids(rest)[k] < |ops|
    {
      assert Ids(rest)[k] == Ids(got)[k + 1];
    }
  }

  // ----- order of publication -----

  /** Every write is published once. */
  predicate AllOut(log: Log) {
    && log.from <= |log.published| && Within(log.published, |log.ops|) && Distinct(log.published)
    && forall i: nat | i < |log.ops| :: i in log.published
  }

  /** Two writes that are published in the wrong order, the second one to the client. */
  predicate Overtaken(log: Log, i: nat, j: nat) {
    i < j < |log.published| && log.from <= j && log.published[j] < log.published[i] < |log.ops|
  }

  /** Of the writes whose events the stream is sent, only those to unrelated paths are published in the wrong
      order. */
  ghost predicate Orderly(log: Log, q: Path) {
    forall i: nat, j: nat | Overtaken(log, i, j) ::
      var a, b := log.ops[log.published[i]], log.ops[log.published[j]];
      SentAt(q, a) && SentAt(q, b) ==> !Comparable(a.path, b.path)
  }

  /** A write that is sent to the client late and a later one that was out before it. */
  lemma OvertakenPair(log: Log, q: Path, start: nat, x: nat, y: nat)
    requires log.from <= start <= |log.published| && Orderly(log, q) && x < y < |log.ops| && y in log.published
    requires var keep, late := SentOf(q, log.ops), log.published[start..];
      x in keep && y in keep && x in late && !Before(Only(late, keep), x, y)
    ensures Independent(log.ops, x, y)
  {
    var i, j := Overtaking(log.published, start, SentOf(q, log.ops), x, y);
    assert Overtaken(log, i, j);
  }

  lemma OrderlyKept(log: Log, q: Path, start: nat, m: nat)
    requires log.from <= start <= |log.published| && m <= |log.ops| && AllOut(log) && Orderly(log, q)
    ensures var keep := SentOf(q, log.ops);
      OrderKept(log.ops, Only(Range(m, |log.ops|), keep), Only(log.published[start..], keep))
  {
    var keep, late := SentOf(q, log.ops), log.published[start..];
    var all, sent := Only(Range(m, |log.ops|), keep), Only(late, keep);
    Listed(m, |log.ops|, keep);
    OnlyHas(late, keep);
    forall x, y | x in all && y in all && x < y && x in sent && !Before(sent, x, y)
      ensures Independent(log.ops, x, y)
    {
      OvertakenPair(log, q, start, x, y);
    }
  }

  lemma BeforeIsBehind(order: seq<nat>, k: nat, y: nat)
    requires Distinct(order) && k < |order| && Before(order, order[k], y)
    ensures y in order[k + 1..]
  {
    var i, j :| 0 <= i < j < |order| && order[i] == order[k] && order[j] == y;
    assert i == k;
    assert order[k + 1..][j - k - 1] == y;
  }

  lemma HitCovered(log: Log, q: Path, start: nat, ids: seq<nat>, k: nat, y: nat)
    requires log.from <= start <= |log.published| && Orderly(log, q) && Distinct(ids) && k < |ids|
    requires ids == Only(log.published[start..], SentOf(q, log.ops)) && ids[k] in log.published[start..]
    requires ids[k] in SentOf(q, log.ops) && ids[k] < y < |log.ops| && y in log.published
    requires Comparable(log.ops[ids[k]].path, log.ops[y].path) && AlignedAt(q, log.ops[y])
    ensures Covered(log.ops, q, y, ids[k + 1..])
  {
    if SentAt(q, log.ops[y]) {
      if !Before(ids, ids[k], y) {
        OvertakenPair(log, q, start, ids[k], y);
      }
      BeforeIsBehind(ids, k, y);
    }
  }

  // ----- catching up -----

  /** The receipts are those of all events sent from the position `start` of `published` on, of writes from `m` on and
      of all from `snap` on. */
  predicate Tail(log: Log, q: Path, start: nat, m: nat, snap: nat, got: seq<Receipt>) {
    && log.from <= start <= |log.published| && m <= snap <= |log.ops| && AlignedFrom(q, log.ops, m)
    && Ids(got) == Only(log.published[start..], SentOf(q, log.ops))
    && Within(Flat(got), |log.ops|) && (forall k | 0 <= k < |got| :: Behind(log.ops, got[k]))
    && (forall x | x in Ids(got) :: m <= x < |log.ops|)
    && (forall x | snap <= x < |log.ops| && x in SentOf(q, log.ops) :: x in Ids(got))
  }

  /** What was in the data of an event already is sent after it, if it is sent. */
  lemma TailCovered(log: Log, q: Path, start: nat, m: nat, snap: nat, got: seq<Receipt>)
    requires AllOut(log) && Orderly(log, q) && Tail(log, q, start, m, snap, got)
    ensures AllCovered(log.ops, q, got)
  {
    var keep, late := SentOf(q, log.ops), log.published[start..];
    OnlyHas(late, keep);
    OnlyDistinct(late, keep);
    forall k, j | 0 <= k < |got| && 0 <= j < |got[k].hits|
      ensures Covered(log.ops, q, got[k].hits[j], Ids(got[k + 1..]))
    {
      assert Behind(log.ops, got[k]) && got[k].hits[j] in got[k].hits && Ids(got)[k] in Ids(got);
      HitCovered(log, q, start, Ids(got), k, got[k].hits[j]);
      assert Ids(got)[k + 1..] == Ids(got[k + 1..]);
    }
  }

  /** The writes of a tail, each carried out on top of a copy that agrees with the content after `snap` writes. */
  lemma IdsCatchUp(log: Log, q: Path, start: nat, m: nat, snap: nat, got: seq<Receipt>, copy: Fields, tree: Fields)
    requires AllOut(log) && Orderly(log, q) && Tail(log, q, start, m, snap, got)
    requires Fetch(copy, q) == Fetch(Run(log.ops[..snap], tree), q)
    ensures Within(Ids(got), |log.ops|)
    ensures Fetch(Run(Pick(log.ops, Ids(got)), copy), q) == Fetch(Run(log.ops, tree), q)
  {
    var ops, keep, n := log.ops, SentOf(q, log.ops), |log.ops|;
    var first, early := Run(ops[..m], tree), Only(Range(m, snap), keep);
    OnlyHas(log.published[start..], keep);
    OnlyDistinct(log.published[start..], keep);
    OrderlyKept(log, q, start, m);
    ReplayReordered(ops, m, snap, keep, Ids(got), first);
    SentSuffice(q, ops, m, snap, early, first);
    SentSuffice(q, ops, m, n, Only(Range(m, n), keep), first);
    FromHere(ops, m, snap, tree);
    FromHere(ops, m, n, tree);
    assert ops[..n] == ops;
    RunAgrees(Pick(ops, Ids(got)), copy, Run(Pick(ops, early), first), q);
  }

  /** A copy that agrees with the content after `snap` writes, and is given a tail, agrees with the content after
      all. */
  lemma CatchesUp(log: Log, q: Path, start: nat, m: nat, snap: nat, got: seq<Receipt>, copy: Fields, tree: Fields)
    requires AllOut(log) && Orderly(log, q) && Tail(log, q, start, m, snap, got)
    requires Fetch(copy, q) == Fetch(Run(log.ops[..snap], tree), q)
    ensures Fetch(Run(Pick(log.ops, Flat(got)), copy), q) == Fetch(Run(log.ops, tree), q)
  {
    IdsCatchUp(log, q, start, m, snap, got, copy, tree);
    TailCovered(log, q, start, m, snap, got);
    FlatAbsorbed(log.ops, q, got, copy);
  }

  // ----- starting afresh -----

  /** The write replaces or removes all that the stream is on. */
  predicate Renewing(q: Path, op: Op) {
    op.path <= q && !op.edit.Patch?
  }

  /** What stands at `q` afterwards does not depend on what stood there. */
  lemma Renewed(op: Op, s: Fields, t: Fields, q: Path)
    requires Renewing(q, op)
    ensures Fetch(Apply(op, s), q) == Fetch(Apply(op, t), q)
  {
    SubtreeProjection(op, s, q);
    SubtreeProjection(op, t, q);
    ProjectCases(op.edit, op.path, q, Fetch(s, q));
    ProjectCases(op.edit, op.path, q, Fetch(t, q));
  }

  /** The event of the write at `published[r]` is sent, and the write renews all that the stream is on. */
  predicate RenewedAt(log: Log, q: Path, r: nat) {
    && log.from <= r < |log.published| && log.published[r] < |log.ops|
    && SentAt(q, log.ops[log.published[r]]) && Renewing(q, log.ops[log.published[r]])
    && AlignedFrom(q, log.ops, log.published[r])
  }

  lemma PrefixesCompare(p: Path, r: Path, q: Path)
    requires p <= q && Comparable(r, q)
    ensures Comparable(p, r)
  {
    if r <= q {
      assert p == q[..|p|] && r == q[..|r|];
    }
  }

  /** A write that is sent is published after the renewing one exactly if it is committed after it. */
  lemma OutAfter(log: Log, q: Path, r: nat, i: nat)
    requires AllOut(log) && Orderly(log, q) && RenewedAt(log, q, r)
    requires i < |log.published| && i != r && log.published[i] in SentOf(q, log.ops)
    ensures log.published[r] < log.published[i] <==> r < i
  {
    PrefixesCompare(log.ops[log.published[r]].path, log.ops[log.published[i]].path, q);
    assert !Overtaken(log, i, r) && !Overtaken(log, r, i);
    if i < r {
      assert log.published[i] != log.published[r];
    } else {
      assert log.published[r] != log.published[i];
    }
  }

  lemma FirstSent(published: seq<nat>, r: nat, keep: set<nat>)
    requires r < |published| && published[r] in keep
    ensures Only(published[r..], keep) == [published[r]] + Only(published[r + 1..], keep)
  {
    var x := published[r];
    assert published[r..] == [x] + published[r + 1..];
    OnlyAppend([x], published[r + 1..], keep);
    assert [x][..0] == [];
    assert Only([x], keep) == [x];
  }

  /** From the renewing write on, the events sent are those of all later writes that are sent. */
  lemma RenewedIds(log: Log, q: Path, r: nat, ids: seq<nat>)
    requires AllOut(log) && Orderly(log, q) && RenewedAt(log, q, r)
    requires ids == Only(log.published[r..], SentOf(q, log.ops))
    ensures ids != [] && ids[0] == log.published[r]
    ensures forall y | y in ids :: log.published[r] <= y < |log.ops|
    ensures forall y | log.published[r] + 1 <= y < |log.ops| && y in SentOf(q, log.ops) :: y in ids
  {
    var keep := SentOf(q, log.ops);
    forall i: nat | i < |log.published| && i != r && log.published[i] in keep
      ensures log.published[r] < log.published[i] <==> r < i
    {
      OutAfter(log, q, r, i);
    }
    ListedAfter(log.published, r, |log.ops|, keep);
    FirstSent(log.published, r, keep);
    OnlyHas(log.published[r + 1..], keep);
  }

  /** What the copy was before the renewing write does not matter. */
  lemma FlatRenewed(ops: seq<Op>, q: Path, got: seq<Receipt>, copy: Fields, other: Fields)
    requires got != [] && Within(Flat(got), |ops|) && got[0].i < |ops| && Renewing(q, ops[got[0].i])
    ensures Fetch(Run(Pick(ops, Flat(got)), copy), q) == Fetch(Run(Pick(ops, Flat(got)), other), q)
  {
    var r, op := got[0], ops[got[0].i];
    FlatRun(ops, got, copy);
    FlatRun(ops, got, other);
    assert Pick(ops, [r.i]) == [] + [op];
    RunLast([], op, copy);
    RunLast([], op, other);
    Renewed(op, copy, other, q);
    RunAgrees(Pick(ops, r.hits), Apply(op, copy), Apply(op, other), q);
    RunAgrees(Pick(ops, Flat(got[1..])), Run(Pick(ops, r.hits), Apply(op, copy)),
              Run(Pick(ops, r.hits), Apply(op, other)), q);
  }

  /** Any copy that is given all that is sent from a renewing write on agrees with the content after all. */
  lemma CatchesUpAfresh(log: Log, q: Path, r: nat, got: seq<Receipt>, copy: Fields, tree: Fields)
    requires AllOut(log) && Orderly(log, q) && RenewedAt(log, q, r)
    requires Ids(got) == Only(log.published[r..], SentOf(q, log.ops))
    requires Within(Flat(got), |log.ops|) && forall k | 0 <= k < |got| :: Behind(log.ops, got[k])
    ensures Fetch(Run(Pick(log.ops, Flat(got)), copy), q) == Fetch(Run(log.ops, tree), q)
  {
    var x := log.published[r];
    var other := Run(log.ops[..x + 1], tree);
    RenewedIds(log, q, r, Ids(got));
    assert got[0].i == Ids(got)[0];
    CatchesUp(log, q, r, x, x + 1, got, other, tree);
    FlatRenewed(log.ops, q, got, copy, other);
  }
}
