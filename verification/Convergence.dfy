/** When the copy of a streaming client is the value that the database holds. */
module Convergence {
  import opened Paths
  import opened JsonTree
  import opened Reorder
  import opened Catchup
  import opened HubModel
  import opened Stream

  function LogOf(s: System): Log {
    Log(Ops(s.committed), s.published, s.from)
  }

  /** A live client with nothing left to apply: every write was published, and nothing is queued for it. */
  predicate Drained(s: System, me: nat) {
    && s.phase.Live? && me in s.hub.chans && Inbox(s, me).buf == []
    && forall i: nat | i < |s.committed| :: i in s.published
  }

  /** Nothing was lost either. */
  predicate Settled(s: System, me: nat) {
    Drained(s, me) && Inbox(s, me).dropped == 0
  }

  /** The write is to the root exactly if the stream is on the root. */
  predicate Aligned(path: string, w: Request) {
    SplitPath(path) == [] <==> SplitPath(w.path) == []
  }

  /** The client subscribed after the first `m` writes were published, and the others are to the root exactly if
      its path is the root. */
  predicate AlignedSince(s: System, path: string, m: nat) {
    && m <= |s.committed| && s.from <= |s.published|
    && (forall i: nat | i < m :: i in s.published[..s.from])
    && (forall i | m <= i < |s.committed| :: Aligned(path, s.committed[i]))
  }

  /** Of the writes whose events the stream is sent, only those to unrelated paths are published in the wrong order, the
      second one to the client. */
  ghost predicate OrderlyFor(s: System, path: string) {
    forall i: nat, j: nat | Overtaken(LogOf(s), i, j) ::
      var v, w := s.committed[s.published[i]], s.committed[s.published[j]];
      Sent(path, v) && Sent(path, w) ==> !Comparable(SplitPath(v.path), SplitPath(w.path))
  }

  /** The client's copy agrees with the database. */
  predicate InStep(s: System, path: string) {
    Fetch(s.replica, SplitPath(path)) == Fetch(s.tree, SplitPath(path))
  }

  lemma LogOrderly(s: System, path: string)
    requires OrderlyFor(s, path)
    ensures Orderly(LogOf(s), SplitPath(path))
  {
    var log, q := LogOf(s), SplitPath(path);
    forall i: nat, j: nat | Overtaken(log, i, j)
      ensures var a, b := log.ops[log.published[i]], log.ops[log.published[j]];
        SentAt(q, a) && SentAt(q, b) ==> !Comparable(a.path, b.path)
    {
      MatchesSegments(path, s.committed[s.published[i]]);
      MatchesSegments(path, s.committed[s.published[j]]);
    }
  }

  lemma LogAligned(s: System, path: string, m: nat)
    requires forall i | m <= i < |s.committed| :: Aligned(path, s.committed[i])
    ensures AlignedFrom(SplitPath(path), LogOf(s).ops, m)
  {
    var ops := LogOf(s).ops;
    forall i | m <= i < |ops|
      ensures AlignedAt(SplitPath(path), ops[i])
    {
      assert Aligned(path, s.committed[i]);
    }
  }

  // ----- convergence -----

  lemma SnapshotLate(s: System, tree: Fields, path: string, m: nat)
    requires Recorded(s, tree) && s.phase.Live? && AlignedSince(s, path, m)
    ensures m <= s.snap
  {
    assert m > 0 ==> m - 1 in s.published[..s.from];
  }

  /** What the database holds, and what a live client holds. */
  predicate Holding(s: System, ops: seq<Op>, tree: Fields, q: Path) {
    && s.snap <= |ops| && Within(Flat(s.got), |ops|) && (forall k | 0 <= k < |s.got| :: Behind(ops, s.got[k]))
    && s.tree == Run(ops, tree) && s.replica == Run(Pick(ops, Flat(s.got)), s.base)
    && Fetch(s.base, q) == Fetch(Run(ops[..s.snap], tree), q)
  }

  lemma FirstOps(ws: seq<Request>, n: nat)
    requires n <= |ws|
    ensures Ops(ws[..n]) == Ops(ws)[..n]
  {
  }

  /** A settled client was given the events of all writes that were not out when it subscribed. */
  lemma GotTail(actions: seq<Action>, tree: Fields, path: string, me: nat, m: nat)
    requires var s := After(actions, tree, path, me); Settled(s, me) && AlignedSince(s, path, m)
    ensures var s := After(actions, tree, path, me);
      && Holding(s, LogOf(s).ops, tree, SplitPath(path)) && AllOut(LogOf(s))
      && Tail(LogOf(s), SplitPath(path), s.from, m, s.snap, s.got)
  {
    var s := After(actions, tree, path, me);
    StaysGood(actions, tree, path, me);
    SnapshotLate(s, tree, path, m);
    LogAligned(s, path, m);
    OnlyHas(s.published[s.from..], SentTo(path, s.committed));
    ListedLate(s.published, s.from, m, s.snap, |s.committed|);
    assert Datas(Inbox(s, me).buf) == [] && Ids(s.got) + [] == Ids(s.got);
    FirstOps(s.committed, s.snap);
  }

  /** Convergence: in every run, a settled client holds at its path what the database holds, if only writes to
      unrelated paths are published in another order than they are committed, and the writes that were not out
      when it subscribed are to the root exactly if its path is the root.  It does no harm that events of writes
      before its snapshot are applied on top of it, some perhaps in another order, nor that the data of an event
      is read late, when later writes have changed it. */
  lemma Converges(actions: seq<Action>, tree: Fields, path: string, me: nat, m: nat)
    requires var s := After(actions, tree, path, me);
      Settled(s, me) && AlignedSince(s, path, m) && OrderlyFor(s, path)
    ensures InStep(After(actions, tree, path, me), path)
  {
    var s := After(actions, tree, path, me);
    GotTail(actions, tree, path, me, m);
    LogOrderly(s, path);
    CatchesUp(LogOf(s), SplitPath(path), s.from, m, s.snap, s.got, s.base, tree);
  }

  lemma InTurn(s: System)
    requires s.published == Range(0, |s.committed|) && s.from <= |s.published|
    ensures forall i: nat | i < s.from :: i in s.published[..s.from]
    ensures forall i: nat | i < |s.committed| :: i in s.published
    ensures forall i: nat, j: nat :: !Overtaken(LogOf(s), i, j)
  {
    var order := s.published;
    forall i: nat | i < |order|
      ensures i in order && (i < s.from ==> i in order[..s.from])
    {
      assert order[i] == i;
      assert i < s.from ==> order[..s.from][i] == i;
    }
  }

  lemma NoneOvertaken(s: System, path: string)
    requires forall i: nat, j: nat :: !Overtaken(LogOf(s), i, j)
    ensures OrderlyFor(s, path)
  {
  }

  /** A client for which events were published in the order of the writes. */
  lemma SettledInTurn(s: System, path: string, me: nat)
    requires s.phase.Live? && me in s.hub.chans && Inbox(s, me).buf == [] && Inbox(s, me).dropped == 0
    requires s.published == Range(0, |s.committed|) && s.from <= |s.published|
    requires forall i | s.from <= i < |s.committed| :: Aligned(path, s.committed[i])
    ensures Settled(s, me) && AlignedSince(s, path, s.from) && OrderlyFor(s, path)
  {
    InTurn(s);
    NoneOvertaken(s, path);
  }

  /** In particular with writers that take turns, each publishing before the next one commits. */
  lemma ConvergesInTurn(actions: seq<Action>, tree: Fields, path: string, me: nat)
    requires var s := After(actions, tree, path, me);
      && s.phase.Live? && me in s.hub.chans && Inbox(s, me).buf == [] && Inbox(s, me).dropped == 0
      && s.published == Range(0, |s.committed|)
      && forall i | s.from <= i < |s.committed| :: Aligned(path, s.committed[i])
    ensures InStep(After(actions, tree, path, me), path)
  {
    var s := After(actions, tree, path, me);
    StaysGood(actions, tree, path, me);
    SettledInTurn(s, path, me);
    Converges(actions, tree, path, me, s.from);
  }

  // ----- after a loss -----

  /** The event of the write at `published[r]` was sent after the last loss, and the write replaces or removes all that
      the stream is on; it and the later ones are to the root exactly if the stream is on the root. */
  predicate Renews(s: System, path: string, r: nat) {
    && s.clean <= r < |s.published| && s.published[r] < |s.committed|
    && Sent(path, s.committed[s.published[r]]) && !s.committed[s.published[r]].edit.Patch?
    && SplitPath(s.committed[s.published[r]].path) <= SplitPath(path)
    && forall i | s.published[r] <= i < |s.committed| :: Aligned(path, s.committed[i])
  }

  /** The receipts of what was sent last. */
  lemma LastGot(got: seq<Receipt>, late: seq<nat>, n: nat) returns (k: nat)
    requires EndsIn(Ids(got), late) && n <= |late|
    ensures k <= |got| && Ids(got[k..]) == late[n..]
  {
    k := |got| - |late| + n;
    forall j | 0 <= j < |late| - n
      ensures Ids(got[k..])[j] == late[n + j]
    {
      assert Ids(got)[|got| - |late| + (n + j)] == late[n + j];
    }
  }

  /** What was given before the event of the write at `published[r]`, and what from there on. */
  lemma RenewedGot(s: System, path: string, me: nat, r: nat) returns (a: seq<Receipt>, b: seq<Receipt>)
    requires me in s.hub.chans && s.from <= s.clean <= r < |s.published|
    requires Counted(s, path, me) && Inbox(s, me).buf == []
    ensures s.got == a + b && Ids(b) == Only(s.published[r..], SentTo(path, s.committed))
  {
    var keep := SentTo(path, s.committed);
    var early, late := s.published[s.clean..r], s.published[r..];
    assert s.published[s.clean..] == early + late;
    OnlyAppend(early, late, keep);
    assert Ids(s.got) + Datas([]) == Ids(s.got);
    var k := LastGot(s.got, Only(early, keep) + Only(late, keep), |Only(early, keep)|);
    a, b := s.got[..k], s.got[k..];
  }

  lemma GotParts(ops: seq<Op>, a: seq<Receipt>, b: seq<Receipt>, copy: Fields) returns (before: Fields)
    requires Within(Flat(a + b), |ops|) && forall k | 0 <= k < |a + b| :: Behind(ops, (a + b)[k])
    ensures Within(Flat(b), |ops|) && forall k | 0 <= k < |b| :: Behind(ops, b[k])
    ensures Run(Pick(ops, Flat(a + b)), copy) == Run(Pick(ops, Flat(b)), before)
  {
    FlatAppend(a, b);
    assert Flat(a) + Flat(b) == Flat(a) + Flat(b) + [];
    PartsWithin(Flat(a), Flat(b), [], |ops|);
    PickMore(ops, Flat(a), Flat(b), copy);
    before := Run(Pick(ops, Flat(a)), copy);
    forall k | 0 <= k < |b|
      ensures Behind(ops, b[k])
    {
      assert b[k] == (a + b)[|a| + k];
    }
  }

  lemma LogRenewed(s: System, path: string, r: nat)
    requires Renews(s, path, r) && s.from <= s.clean
    ensures RenewedAt(LogOf(s), SplitPath(path), r)
  {
    MatchesSegments(path, s.committed[s.published[r]]);
    LogAligned(s, path, s.published[r]);
  }

  /** A client with nothing left to apply was given all that was sent from the renewing write on. */
  lemma GotRenewed(actions: seq<Action>, tree: Fields, path: string, me: nat, r: nat)
    returns (a: seq<Receipt>, b: seq<Receipt>)
    requires var s := After(actions, tree, path, me); Drained(s, me) && Renews(s, path, r)
    ensures var s := After(actions, tree, path, me);
      && Holding(s, LogOf(s).ops, tree, SplitPath(path)) && AllOut(LogOf(s)) && RenewedAt(LogOf(s), SplitPath(path), r)
      && s.got == a + b && Ids(b) == Only(s.published[r..], SentTo(path, s.committed))
  {
    var s := After(actions, tree, path, me);
    StaysGood(actions, tree, path, me);
    a, b := RenewedGot(s, path, me, r);
    LogRenewed(s, path, r);
    FirstOps(s.committed, s.snap);
  }

  /** A client that has lost events is in step again as soon as a put or removal of all that its stream is on was
      sent to it after the last loss. */
  lemma Recovers(actions: seq<Action>, tree: Fields, path: string, me: nat, r: nat)
    requires var s := After(actions, tree, path, me);
      Drained(s, me) && OrderlyFor(s, path) && Renews(s, path, r)
    ensures InStep(After(actions, tree, path, me), path)
  {
    var s := After(actions, tree, path, me);
    var a, b := GotRenewed(actions, tree, path, me, r);
    var before := GotParts(LogOf(s).ops, a, b, s.base);
    LogOrderly(s, path);
    CatchesUpAfresh(LogOf(s), SplitPath(path), r, b, before, tree);
  }
}
