/** Runs that show what convergence asks for is needed: writes to related paths published in their order, writes to the
    root for streams on the root alone, and no loss. */
module StreamLimits {
  import opened Options
  import opened Paths
  import opened JsonTree
  import opened TreeLaws
  import opened Reorder
  import opened Sharing
  import opened Catchup
  import opened HubModel
  import opened Stream
  import opened Convergence

  // ----- playing a run step by step -----

  lemma Then(actions: seq<Action>, a: Action, tree: Fields, path: string, me: nat)
    ensures After(actions + [a], tree, path, me) == Act(After(actions, tree, path, me), a, path, me)
  {
    assert (actions + [a])[..|actions|] == actions;
  }

  /** A client that was there from the start: the writes, what is published of them, what is queued, how many events
      were lost, the content, and the copy. */
  datatype View = View(ws: seq<Request>, published: seq<nat>, queue: seq<nat>, lost: nat, now: Fields, copy: Fields)

  function ViewOf(s: System, me: nat): View
    requires me in s.hub.chans
  {
    View(s.committed, s.published, Datas(Inbox(s, me).buf), Inbox(s, me).dropped, s.tree, s.replica)
  }

  /** The client is live and there is this to see. */
  predicate Shows(s: System, path: string, me: nat, v: View) {
    s.phase.Live? && s.from == 0 && Tuned(s, path, me) && ViewOf(s, me) == v
  }

  /** So it is after the run. */
  ghost predicate Runs(actions: seq<Action>, tree: Fields, path: string, me: nat, v: View) {
    forall s | s == After(actions, tree, path, me) :: Shows(s, path, me, v)
  }

  function Committed(v: View, w: Request): View {
    v.(ws := v.ws + [w], now := Apply(OpOf(w), v.now))
  }

  function Announced(v: View, i: nat, path: string): View
    requires i < |v.ws|
  {
    var sent, room := Sent(path, v.ws[i]), |v.queue| < CAPACITY;
    v.(published := v.published + [i], queue := v.queue + (if sent && room then [i] else []),
       lost := v.lost + if sent && !room then 1 else 0)
  }

  function Delivered(v: View): View {
    if v.queue == [] || v.queue[0] >= |v.ws| then v
    else v.(queue := v.queue[1..], copy := Apply(ReadIn(v.ws, v.queue[0]), v.copy))
  }

  lemma CommitShows(s: System, w: Request, path: string, me: nat, v: View)
    requires Shows(s, path, me, v)
    ensures Shows(Act(s, Commit(w), path, me), path, me, Committed(v, w))
  {
  }

  lemma AnnounceShows(s: System, i: nat, path: string, me: nat, v: View)
    requires Shows(s, path, me, v) && i < |v.ws| && i !in v.published
    ensures Shows(Act(s, Announce(i), path, me), path, me, Announced(v, i, path))
  {
    var s' := Act(s, Announce(i), path, me);
    AnnounceOffered(s, i, path, me);
    if Inbox(s', me).buf == Inbox(s, me).buf {
      assert v.queue + [] == v.queue;
    } else {
      assert Datas(Inbox(s', me).buf) == v.queue + [i];
    }
  }

  lemma DeliverShows(s: System, path: string, me: nat, v: View)
    requires Shows(s, path, me, v)
    ensures Shows(Act(s, Deliver, path, me), path, me, Delivered(v))
    ensures v.queue != [] ==> v.queue[0] < |v.ws|
  {
    var buf := Inbox(s, me).buf;
    if v.queue != [] {
      assert v.queue[0] == buf[0].data;
      DecodesBack(v.ws, v.queue[0]);
      DeliverTuned(s, path, me);
      assert Datas(buf[1..]) == Datas(buf)[1..];
    }
  }

  /** The same for the last action of a run. */
  lemma CommitRuns(actions: seq<Action>, w: Request, tree: Fields, path: string, me: nat, v: View)
    requires Runs(actions, tree, path, me, v)
    ensures Runs(actions + [Commit(w)], tree, path, me, Committed(v, w))
  {
    var s := After(actions, tree, path, me);
    assert Shows(s, path, me, v);
    Then(actions, Commit(w), tree, path, me);
    CommitShows(s, w, path, me, v);
  }

  lemma AnnounceRuns(actions: seq<Action>, i: nat, tree: Fields, path: string, me: nat, v: View)
    requires Runs(actions, tree, path, me, v) && i < |v.ws| && i !in v.published
    ensures Runs(actions + [Announce(i)], tree, path, me, Announced(v, i, path))
  {
    var s := After(actions, tree, path, me);
    assert Shows(s, path, me, v);
    Then(actions, Announce(i), tree, path, me);
    AnnounceShows(s, i, path, me, v);
  }

  lemma DeliverRuns(actions: seq<Action>, tree: Fields, path: string, me: nat, v: View)
    requires Runs(actions, tree, path, me, v)
    ensures Runs(actions + [Deliver], tree, path, me, Delivered(v))
    ensures v.queue != [] ==> v.queue[0] < |v.ws|
  {
    var s := After(actions, tree, path, me);
    assert Shows(s, path, me, v);
    Then(actions, Deliver, tree, path, me);
    DeliverShows(s, path, me, v);
  }

  function Start(): seq<Action> {
    [Connect] + [Snapshot]
  }

  lemma StartShows(tree: Fields, path: string, me: nat)
    ensures var s := After(Start(), tree, path, me);
      && Shows(s, path, me, View([], [], [], 0, tree, s.replica))
      && Fetch(s.replica, SplitPath(path)) == Fetch(tree, SplitPath(path))
  {
    var s0 := Initial(tree);
    var s1 := Act(s0, Connect, path, me);
    assert [] + [Connect] == [Connect];
    Then([], Connect, tree, path, me);
    Then([Connect], Snapshot, tree, path, me);
    SnapshotFaithful(s1, path, me);
  }

  /** The copy that the client starts with. */
  lemma StartRuns(tree: Fields, path: string, me: nat) returns (copy: Fields)
    ensures Runs(Start(), tree, path, me, View([], [], [], 0, tree, copy))
    ensures Fetch(copy, SplitPath(path)) == Fetch(tree, SplitPath(path))
  {
    StartShows(tree, path, me);
    copy := After(Start(), tree, path, me).replica;
  }

  lemma RunSettles(actions: seq<Action>, tree: Fields, path: string, me: nat, v: View)
    requires Runs(actions, tree, path, me, v) && v.queue == [] && forall i: nat | i < |v.ws| :: i in v.published
    ensures var s := After(actions, tree, path, me);
      && Drained(s, me) && (v.lost == 0 ==> Settled(s, me)) && Inbox(s, me).dropped == v.lost
      && s.committed == v.ws && s.published == v.published && s.from == 0
      && (InStep(s, path) <==> Fetch(v.copy, SplitPath(path)) == Fetch(v.now, SplitPath(path)))
  {
    var s := After(actions, tree, path, me);
    assert Shows(s, path, me, v);
    assert Datas(Inbox(s, me).buf) == [];
  }

  // ----- writes to the root, and streams on it -----

  function OneWrite(w: Request): seq<Action> {
    Start() + [Commit(w)] + [Announce(0)] + [Deliver]
  }

  /** The client has then applied all that it was sent. */
  lemma OneWriteRuns(run: seq<Action>, w: Request, tree: Fields, path: string, me: nat)
    requires run == OneWrite(w)
    ensures var q, s := SplitPath(path), After(run, tree, path, me);
      && Settled(s, me) && s.committed == [w] && |s.published| == 1 && s.from == 0
      && (!Sent(path, w) ==> (InStep(s, path) <==> Fetch(Apply(OpOf(w), tree), q) == Fetch(tree, q)))
  {
    var copy := StartRuns(tree, path, me);
    var v := View([], [], [], 0, tree, copy);
    OneWritePlays(run, w, tree, path, me, v);
    OneWriteView(v, w, path);
    OneWriteEnds(run, w, tree, path, me, Delivered(Announced(Committed(v, w), 0, path)), copy);
  }

  lemma OneWriteEnds(run: seq<Action>, w: Request, tree: Fields, path: string, me: nat, v: View, copy: Fields)
    requires Runs(run, tree, path, me, v) && v.ws == [w] && v.published == [0] && v.queue == [] && v.lost == 0
    requires v.now == Apply(OpOf(w), tree) && (!Sent(path, w) ==> v.copy == copy)
    requires Fetch(copy, SplitPath(path)) == Fetch(tree, SplitPath(path))
    ensures var q, s := SplitPath(path), After(run, tree, path, me);
      && Settled(s, me) && s.committed == [w] && |s.published| == 1 && s.from == 0
      && (!Sent(path, w) ==> (InStep(s, path) <==> Fetch(Apply(OpOf(w), tree), q) == Fetch(tree, q)))
  {
    assert v.published[0] == 0;
    RunSettles(run, tree, path, me, v);
  }

  lemma OneWritePlays(run: seq<Action>, w: Request, tree: Fields, path: string, me: nat, v: View)
    requires run == OneWrite(w) && Runs(Start(), tree, path, me, v) && v.ws == [] && v.published == []
    ensures Runs(run, tree, path, me, Delivered(Announced(Committed(v, w), 0, path)))
  {
    var a1, v1 := Start() + [Commit(w)], Committed(v, w);
    CommitRuns(Start(), w, tree, path, me, v);
    AnnounceRuns(a1, 0, tree, path, me, v1);
    DeliverRuns(a1 + [Announce(0)], tree, path, me, Announced(v1, 0, path));
  }

  lemma OneWriteView(v: View, w: Request, path: string)
    requires v.ws == [] && v.published == [] && v.queue == [] && v.lost == 0
    ensures var v3 := Delivered(Announced(Committed(v, w), 0, path));
      && v3.ws == [w] && v3.published == [0] && v3.queue == [] && v3.lost == 0 && v3.now == Apply(OpOf(w), v.now)
      && (!Sent(path, w) ==> v3.copy == v.copy)
  {
  }

  predicate OneWriteInStep(w: Request, tree: Fields, path: string, me: nat) {
    InStep(After(OneWrite(w), tree, path, me), path)
  }

  lemma OneWriteOrderly(s: System, w: Request, path: string)
    requires s.committed == [w] && |s.published| == 1 && s.from == 0 && Aligned(path, w)
    ensures OrderlyFor(s, path) && AlignedSince(s, path, 0)
  {
    forall i: nat, j: nat | Overtaken(LogOf(s), i, j)
      ensures false
    {
    }
    forall i | 0 <= i < |s.committed|
      ensures Aligned(path, s.committed[i])
    {
      assert s.committed[i] == w;
    }
  }

  lemma OneWriteConverges(w: Request, tree: Fields, path: string, me: nat)
    requires Aligned(path, w)
    ensures OneWriteInStep(w, tree, path, me)
  {
    var run := OneWrite(w);
    OneWriteRuns(run, w, tree, path, me);
    OneWriteOrderly(After(run, tree, path, me), w, path);
    Converges(run, tree, path, me, 0);
  }

  /** A write that is not sent, and that changes what the stream is on. */
  lemma UnsentClash(p: Path, q: Path) returns (e: Edit, tree: Fields)
    requires !(q == [] <==> p == [])
    ensures Fetch(Apply(Op(p, e), tree), q) != Fetch(tree, q)
  {
    var none: Fields := map[];
    if q == [] {
      e, tree := Put(Null), none;
      SubtreeProjection(Op(p, e), none, p);
      ProjectCases(e, p, p, Fetch(none, p));
      LookupNothing(p[1..]);
    } else {
      e, tree := Delete, Apply(Op(q, Put(Null)), none);
      SubtreeProjection(Op(q, Put(Null)), none, q);
      ProjectCases(Put(Null), q, q, Fetch(none, q));
      LookupNothing(q[1..]);
      assert Apply(Op(p, Delete), tree) == none;
    }
  }

  /** Alignment is needed, for streams on the root and below it alike: a client that is there for one write, and has
      applied all that it was sent, is sure to be in step afterwards exactly if the write is to the root just when
      its stream is on the root. */
  lemma AlignmentExact(path: string, target: string, me: nat)
    ensures (forall e: Edit, tree: Fields :: OneWriteInStep(Request(target, e), tree, path, me))
      <==> (SplitPath(path) == [] <==> SplitPath(target) == [])
  {
    if SplitPath(path) == [] <==> SplitPath(target) == [] {
      forall e: Edit, tree: Fields
        ensures OneWriteInStep(Request(target, e), tree, path, me)
      {
        OneWriteConverges(Request(target, e), tree, path, me);
      }
    } else {
      var e, tree := UnsentClash(SplitPath(target), SplitPath(path));
      MatchesSegments(path, Request(target, e));
      OneWriteRuns(OneWrite(Request(target, e)), Request(target, e), tree, path, me);
      assert !OneWriteInStep(Request(target, e), tree, path, me);
    }
  }

  // ----- writes that overtake each other -----

  /** Two writes are committed, and their events published the other way round. */
  function Crossing(v: Request, w: Request): seq<Action> {
    Start() + [Commit(v)] + [Commit(w)] + [Announce(1)] + [Announce(0)] + [Deliver] + [Deliver]
  }

  /** What there is to see after it. */
  function Crossed(v: View, v0: Request, w: Request, path: string): View
    requires |v.ws| == 0
  {
    Delivered(Delivered(Announced(Announced(Committed(Committed(v, v0), w), 1, path), 0, path)))
  }

  lemma CrossingRuns(run: seq<Action>, v: Request, w: Request, tree: Fields, path: string, me: nat)
    requires Sent(path, v) && Sent(path, w) && run == Crossing(v, w)
    ensures var q, s := SplitPath(path), After(run, tree, path, me);
      && Settled(s, me) && s.committed == [v, w] && s.published == [1, 0] && s.from == 0
      && (InStep(s, path) <==>
            Fetch(Apply(ReadAfter(OpOf(v), [OpOf(w)]), Apply(OpOf(w), tree)), q)
              == Fetch(Apply(OpOf(w), Apply(OpOf(v), tree)), q))
  {
    var copy := StartRuns(tree, path, me);
    var start := View([], [], [], 0, tree, copy);
    CrossingPlays(run, v, w, tree, path, me, start);
    CrossingView(start, v, w, path);
    CrossingEnds(run, v, w, tree, path, me, Crossed(start, v, w, path), copy);
  }

  lemma CrossingEnds(run: seq<Action>, v: Request, w: Request, tree: Fields, path: string, me: nat, end: View,
                     copy: Fields)
    requires Runs(run, tree, path, me, end) && end.ws == [v, w] && end.published == [1, 0] && end.queue == []
    requires end.lost == 0 && end.now == Apply(OpOf(w), Apply(OpOf(v), tree))
    requires end.copy == Apply(ReadAfter(OpOf(v), [OpOf(w)]), Apply(OpOf(w), copy))
    requires Fetch(copy, SplitPath(path)) == Fetch(tree, SplitPath(path))
    ensures var q, s := SplitPath(path), After(run, tree, path, me);
      && Settled(s, me) && s.committed == [v, w] && s.published == [1, 0] && s.from == 0
      && (InStep(s, path) <==>
            Fetch(Apply(ReadAfter(OpOf(v), [OpOf(w)]), Apply(OpOf(w), tree)), q)
              == Fetch(Apply(OpOf(w), Apply(OpOf(v), tree)), q))
  {
    assert end.published[1] == 0 && end.published[0] == 1;
    CrossingAgrees(OpOf(v), OpOf(w), copy, tree, SplitPath(path));
    RunSettles(run, tree, path, me, end);
  }

  lemma CrossingAgrees(v: Op, w: Op, copy: Fields, tree: Fields, q: Path)
    requires Fetch(copy, q) == Fetch(tree, q)
    ensures Fetch(Apply(ReadAfter(v, [w]), Apply(w, copy)), q) == Fetch(Apply(ReadAfter(v, [w]), Apply(w, tree)), q)
  {
    AgreementKept(w, copy, tree, q);
    AgreementKept(ReadAfter(v, [w]), Apply(w, copy), Apply(w, tree), q);
  }

  lemma CrossingPlays(run: seq<Action>, v: Request, w: Request, tree: Fields, path: string, me: nat, start: View)
    requires run == Crossing(v, w) && Runs(Start(), tree, path, me, start) && start.ws == [] && start.published == []
    ensures Runs(run, tree, path, me, Crossed(start, v, w, path))
  {
    var v1, a1 := Committed(start, v), Start() + [Commit(v)];
    CommitRuns(Start(), v, tree, path, me, start);
    var v2, a2 := Committed(v1, w), a1 + [Commit(w)];
    CommitRuns(a1, w, tree, path, me, v1);
    var v3, a3 := Announced(v2, 1, path), a2 + [Announce(1)];
    AnnounceRuns(a2, 1, tree, path, me, v2);
    var v4, a4 := Announced(v3, 0, path), a3 + [Announce(0)];
    AnnounceRuns(a3, 0, tree, path, me, v3);
    DeliverRuns(a4, tree, path, me, v4);
    DeliverRuns(a4 + [Deliver], tree, path, me, Delivered(v4));
  }

  /** The client has applied the second write, and after it what the event of the first had become. */
  lemma CrossingView(start: View, v: Request, w: Request, path: string)
    requires start.ws == [] && start.published == [] && start.queue == [] && start.lost == 0
    requires Sent(path, v) && Sent(path, w)
    ensures Crossed(start, v, w, path) ==
      View([v, w], [1, 0], [], 0, Apply(OpOf(w), Apply(OpOf(v), start.now)),
           Apply(ReadAfter(OpOf(v), [OpOf(w)]), Apply(OpOf(w), start.copy)))
  {
    var ws, now := [v, w], Apply(OpOf(w), Apply(OpOf(v), start.now));
    assert [v] + [w] == ws && [1] + [0] == [1, 0];
    assert Announced(Announced(Committed(Committed(start, v), w), 1, path), 0, path)
      == View(ws, [1, 0], [1, 0], 0, now, start.copy);
    CrossingReads(ws);
    assert Delivered(View(ws, [1, 0], [1, 0], 0, now, start.copy))
      == View(ws, [1, 0], [0], 0, now, Apply(OpOf(w), start.copy));
  }

  lemma CrossingReads(ws: seq<Request>)
    requires |ws| == 2
    ensures ReadIn(ws, 1) == OpOf(ws[1]) && ReadIn(ws, 0) == ReadAfter(OpOf(ws[0]), [OpOf(ws[1])])
    ensures [1 as nat, 0][1..] == [0] && [0 as nat][1..] == []
  {
    assert Ops(ws[2..]) == [] && Ops(ws[1..]) == [OpOf(ws[1])];
    FreshReads(OpOf(ws[1]));
  }

  predicate CrossingInStep(v: Request, w: Request, tree: Fields, path: string, me: nat) {
    InStep(After(Crossing(v, w), tree, path, me), path)
  }

  lemma CrossingOrderly(s: System, v: Request, w: Request, path: string)
    requires s.committed == [v, w] && s.published == [1, 0] && s.from == 0
    requires Sent(path, v) && Sent(path, w) && !Comparable(SplitPath(v.path), SplitPath(w.path))
    ensures OrderlyFor(s, path) && AlignedSince(s, path, 0)
  {
    MatchesSegments(path, v);
    MatchesSegments(path, w);
    forall i: nat, j: nat | Overtaken(LogOf(s), i, j)
      ensures s.committed[s.published[i]] == w && s.committed[s.published[j]] == v
    {
    }
    forall i | 0 <= i < |s.committed|
      ensures Aligned(path, s.committed[i])
    {
      assert s.committed[i] == v || s.committed[i] == w;
    }
  }

  lemma CrossingConverges(v: Request, w: Request, tree: Fields, path: string, me: nat)
    requires Sent(path, v) && Sent(path, w) && !Comparable(SplitPath(v.path), SplitPath(w.path))
    ensures CrossingInStep(v, w, tree, path, me)
  {
    CrossingRuns(Crossing(v, w), v, w, tree, path, me);
    CrossingOrderly(After(Crossing(v, w), tree, path, me), v, w, path);
    Converges(Crossing(v, w), tree, path, me, 0);
  }

  /** A put at `p` is the same when it is read after a removal at or above `p`, and a removal always is. */
  lemma ReadsSame(p: Path, r: Path, v: Json, f: Edit)
    ensures r <= p ==> ReadAfter(Op(p, Put(v)), [Op(r, Delete)]) == Op(p, Put(v))
    ensures ReadAfter(Op(p, Delete), [Op(r, f)]) == Op(p, Delete)
  {
    var none: seq<Op> := [];
    assert [Op(r, Delete)][..0] == none && [Op(r, f)][..0] == none;
    assert Shares(Put(v), p, none) == Whole(Ref(v, true)) && Shares(Delete, p, none) == Nothing;
  }

  /** The order of publication matters: two writes whose events are sent to a client, published the other way round, are
      sure to leave it in step, whatever they write, exactly if neither path is above or below the other. */
  lemma PublishOrderExact(path: string, first: string, second: string, me: nat)
    requires Related(SplitPath(path), SplitPath(first)) && Related(SplitPath(path), SplitPath(second))
    ensures (forall e: Edit, f: Edit, tree: Fields ::
               CrossingInStep(Request(first, e), Request(second, f), tree, path, me))
      <==> !Comparable(SplitPath(first), SplitPath(second))
  {
    var q, p, r := SplitPath(path), SplitPath(first), SplitPath(second);
    MatchesSegments(path, Request(first, Delete));
    MatchesSegments(path, Request(second, Delete));
    if !Comparable(p, r) {
      forall e: Edit, f: Edit, tree: Fields
        ensures CrossingInStep(Request(first, e), Request(second, f), tree, path, me)
      {
        CrossingConverges(Request(first, e), Request(second, f), tree, path, me);
      }
    } else if p <= r {
      var full := Clash(p, r, q);
      ReadsSame(p, r, full, Put(full));
      var v, w := Request(first, Delete), Request(second, Put(full));
      CrossingRuns(Crossing(v, w), v, w, map[], path, me);
      assert !CrossingInStep(v, w, map[], path, me);
    } else {
      var full := Clash(r, p, q);
      ReadsSame(p, r, full, Delete);
      var v, w := Request(first, Put(full)), Request(second, Delete);
      CrossingRuns(Crossing(v, w), v, w, map[], path, me);
      assert !CrossingInStep(v, w, map[], path, me);
    }
  }

  /** The value at `q` after two operations does not depend on their order. */
  predicate SameEitherWay(a: Op, b: Op, tree: Fields, q: Path) {
    Fetch(Apply(a, Apply(b, tree)), q) == Fetch(Apply(b, Apply(a, tree)), q)
  }

  /** A value to put at `r` that shows at `q` unless it is deleted at `p` afterwards. */
  lemma Clash(p: Path, r: Path, q: Path) returns (full: Json)
    requires p <= r && Comparable(r, q)
    ensures !SameEitherWay(Op(p, Delete), Op(r, Put(full)), map[], q)
    ensures !SameEitherWay(Op(r, Put(full)), Op(p, Delete), map[], q)
  {
    var none: Fields := map[];
    var x := (if r <= q then q else r) + ["x"];
    SubtreeProjection(Op(x, Put(Null)), none, x);
    ProjectCases(Put(Null), x, x, Fetch(none, x));
    var t := Apply(Op(x, Put(Null)), none);
    ReadBelow(t, r, x);
    full := Fetch(t, r).value;
    var put, deleted := Apply(Op(r, Put(full)), none), Apply(Op(p, Delete), none);
    var kept, gone := Apply(Op(r, Put(full)), deleted), Apply(Op(p, Delete), put);
    SubtreeProjection(Op(r, Put(full)), deleted, x);
    ProjectCases(Put(full), r, x, Fetch(deleted, x));
    SubtreeProjection(Op(p, Delete), put, x);
    ProjectCases(Delete, p, x, Fetch(put, x));
    assert Fetch(kept, x) == Some(Null) && Fetch(gone, x) == None;
    SplitRead(kept, q, x);
    SplitRead(gone, q, x);
  }

  lemma SplitRead(t: Fields, q: Path, x: Path)
    requires q <= x
    ensures Fetch(t, x) == Lookup(Fetch(t, q), x[|q|..])
  {
    assert x == q + x[|q|..];
    LookupAppend(Some(Obj(t)), q, x[|q|..]);
  }

  lemma ReadBelow(t: Fields, r: Path, x: Path)
    requires r <= x && Fetch(t, x).Some?
    ensures Fetch(t, r).Some? && Lookup(Fetch(t, r), x[|r|..]) == Fetch(t, x)
  {
    SplitRead(t, r, x);
    LookupNothing(x[|r|..]);
  }

  // ----- a loss -----

  /** The first `n` writes, each published at once, with nobody reading. */
  function Flood(ws: seq<Request>, n: nat): seq<Action>
    requires n <= |ws|
  {
    if n == 0 then Start() else Flood(ws, n - 1) + [Commit(ws[n - 1])] + [Announce(n - 1)]
  }

  /** Puts of objects, all to the path of the stream. */
  predicate PutsAt(path: string, ws: seq<Request>) {
    forall i | 0 <= i < |ws| :: ws[i].path == path && ws[i].edit.Put? && ws[i].edit.value.Obj?
  }

  /** Which events find room, and how many do not. */
  function Queued(n: nat): seq<nat> {
    Range(0, if n < CAPACITY then n else CAPACITY)
  }

  function Overflow(n: nat): nat {
    if n < CAPACITY then 0 else n - CAPACITY
  }

  /** After `n` writes with nobody reading. */
  predicate Full(v: View, ws: seq<Request>, n: nat)
    requires n <= |ws|
  {
    v.ws == ws[..n] && v.published == Range(0, n) && v.queue == Queued(n) && v.lost == Overflow(n)
  }

  lemma {:induction false} Flooded(ws: seq<Request>, n: nat, run: seq<Action>, tree: Fields, path: string, me: nat)
    returns (v: View)
    requires n <= |ws| && PutsAt(path, ws) && run == Flood(ws, n)
    ensures Runs(run, tree, path, me, v) && Full(v, ws, n)
    ensures n > 0 ==> Fetch(v.now, SplitPath(path)) == Some(ws[n - 1].edit.value)
    decreases n
  {
    if n == 0 {
      var copy := StartRuns(tree, path, me);
      v := View([], [], [], 0, tree, copy);
    } else {
      var w, k, front := ws[n - 1], n - 1, Flood(ws, n - 1);
      var u := Flooded(ws, k, front, tree, path, me);
      var u' := Committed(u, w);
      CommitRuns(front, w, tree, path, me, u);
      OneMoreWritten(u, ws, k, path);
      AnnounceRuns(front + [Commit(w)], k, tree, path, me, u');
      PutShows(w.edit.value, SplitPath(path), u.now);
      v := Announced(u', k, path);
    }
  }

  lemma OneMoreWritten(u: View, ws: seq<Request>, k: nat, path: string)
    requires k < |ws| && PutsAt(path, ws) && Full(u, ws, k)
    ensures var v := Committed(u, ws[k]);
      && k < |v.ws| && k !in v.published && v.now == Apply(OpOf(ws[k]), u.now)
      && Full(Announced(v, k, path), ws, k + 1)
  {
    MatchesSegments(path, ws[k]);
    assert ws[..k] + [ws[k]] == ws[..k + 1];
    assert Range(0, k) + [k] == Range(0, k + 1);
    assert Queued(k) + (if k < CAPACITY then [k] else []) == Queued(k + 1);
  }

  lemma PutShows(v: Json, q: Path, tree: Fields)
    requires v.Obj?
    ensures Fetch(Apply(Op(q, Put(v)), tree), q) == Some(v)
  {
    SubtreeProjection(Op(q, Put(v)), tree, q);
    ProjectCases(Put(v), q, q, Fetch(tree, q));
  }

  /** Then the client applies the first `n` events of its queue. */
  function Drain(ws: seq<Request>, n: nat): seq<Action> {
    if n == 0 then Flood(ws, |ws|) else Drain(ws, n - 1) + [Deliver]
  }

  /** The event of a put is the same after another put at the path. */
  lemma {:induction false} PutReadsSame(v: Json, q: Path, later: seq<Op>)
    requires forall i | 0 <= i < |later| :: later[i].path == q && later[i].edit.Put?
    ensures ReadAfter(Op(q, Put(v)), later) == Op(q, Put(v))
    decreases |later|
  {
    if later != [] {
      PutReadsSame(v, q, later[..|later| - 1]);
    }
  }

  /** Each event is read as it was written. */
  lemma PutReadIn(ws: seq<Request>, i: nat, path: string)
    requires PutsAt(path, ws) && i < |ws|
    ensures ReadIn(ws, i) == OpOf(ws[i]) == Op(SplitPath(path), Put(ws[i].edit.value)) && ws[i].edit.value.Obj?
  {
    var later := Ops(ws[i + 1..]);
    forall j | 0 <= j < |later|
      ensures later[j].path == SplitPath(path) && later[j].edit.Put?
    {
      assert later[j] == OpOf(ws[i + 1 + j]);
    }
    PutReadsSame(ws[i].edit.value, SplitPath(path), later);
  }

  /** After `n` of the queued events are applied. */
  predicate Reading(v: View, ws: seq<Request>, n: nat)
    requires n <= CAPACITY < |ws|
  {
    v.ws == ws && v.published == Range(0, |ws|) && v.queue == Range(n, CAPACITY) && v.lost == |ws| - CAPACITY
  }

  lemma AllWritten(v: View, ws: seq<Request>)
    requires CAPACITY < |ws| && Full(v, ws, |ws|)
    ensures Reading(v, ws, 0)
  {
    assert ws[..|ws|] == ws;
  }

  lemma OneMoreRead(u: View, ws: seq<Request>, k: nat, path: string)
    requires PutsAt(path, ws) && k < CAPACITY < |ws| && Reading(u, ws, k)
    ensures Reading(Delivered(u), ws, k + 1) && Delivered(u).now == u.now
    ensures Fetch(Delivered(u).copy, SplitPath(path)) == Some(ws[k].edit.value)
  {
    PutReadIn(ws, k, path);
    PutShows(ws[k].edit.value, SplitPath(path), u.copy);
    assert u.queue[0] == k && u.queue[1..] == Range(k + 1, CAPACITY);
  }

  lemma {:induction false} DrainRuns(ws: seq<Request>, n: nat, run: seq<Action>, tree: Fields, path: string, me: nat)
    returns (v: View)
    requires PutsAt(path, ws) && n <= CAPACITY < |ws| && run == Drain(ws, n)
    ensures Runs(run, tree, path, me, v) && Reading(v, ws, n)
    ensures Fetch(v.now, SplitPath(path)) == Some(ws[|ws| - 1].edit.value)
    ensures n > 0 ==> Fetch(v.copy, SplitPath(path)) == Some(ws[n - 1].edit.value)
    decreases n
  {
    if n == 0 {
      v := Flooded(ws, |ws|, run, tree, path, me);
      AllWritten(v, ws);
    } else {
      var front := Drain(ws, n - 1);
      var u := DrainRuns(ws, n - 1, front, tree, path, me);
      DeliverRuns(front, tree, path, me, u);
      OneMoreRead(u, ws, n - 1, path);
      v := Delivered(u);
    }
  }

  lemma AllListed(n: nat)
    ensures forall i: nat | i < n :: i in Range(0, n)
  {
    forall i: nat | i < n
      ensures i in Range(0, n)
    {
      assert Range(0, n)[i] == i;
    }
  }

  /** A loss matters: when more puts than the queue holds come before the client reads, and it then applies all that is
      queued, it is in step exactly if the last put that found room and the last one of all put the same value. */
  lemma {:induction false} LossLeavesBehind(ws: seq<Request>, run: seq<Action>, tree: Fields, path: string, me: nat)
    requires PutsAt(path, ws) && |ws| > CAPACITY && run == Drain(ws, CAPACITY)
    ensures var s := After(run, tree, path, me);
      && Drained(s, me) && Inbox(s, me).dropped == |ws| - CAPACITY
      && (InStep(s, path) <==> ws[CAPACITY - 1].edit == ws[|ws| - 1].edit)
  {
    var v := DrainRuns(ws, CAPACITY, run, tree, path, me);
    AllListed(|ws|);
    RunSettles(run, tree, path, me, v);
  }
}
