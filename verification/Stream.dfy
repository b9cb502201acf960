/** A streaming client beside the database: it subscribes, takes a snapshot, and then applies each event it is
    sent. */
module Stream {
  import opened Options
  import opened Paths
  import opened JsonTree
  import opened TreeLaws
  import opened Reorder
  import opened Sharing
  import opened Catchup
  import opened HubModel

  /** A call of Set, Update or Delete. */
  datatype Request = Request(path: string, edit: Edit)

  function OpOf(w: Request): Op {
    Op(SplitPath(w.path), w.edit)
  }

  function Ops(ws: seq<Request>): seq<Op> {
    seq(|ws|, i requires 0 <= i < |ws| => OpOf(ws[i]))
  }

  function KindOf(e: Edit): string {
    match e { case Put(_) => "put" case Patch(_) => "patch" case Delete => "delete" }
  }

  /** The event that the write at position `i` publishes.  Its data is a reference, of which the position reminds. */
  function EventOf(w: Request, i: nat): Event<nat> {
    Event(KindOf(w.edit), EventPath(w.path), i)
  }

  /** What the event of the write at position `i` stands for when the writes `ws` are done. */
  function ReadIn(ws: seq<Request>, i: nat): Op
    requires i < |ws|
  {
    ReadAfter(OpOf(ws[i]), Ops(ws[i + 1..]))
  }

  /** The event as it is sent on when the writes `ws` are done. */
  function Wire(ws: seq<Request>, ev: Event<nat>): Event<Json>
    requires ev.data < |ws|
  {
    Event(ev.kind, ev.path, Payload(ReadIn(ws, ev.data).edit))
  }

  /** What a client does on an event. */
  function Decode(ev: Event<Json>): Op {
    Op(SplitPath(ev.path),
       if ev.kind == "put" then Put(ev.data)
       else if ev.kind == "patch" then Patch(FieldsOf(Some(ev.data)))
       else Delete)
  }

  /** The writes behind the one at position `i` that have changed its data by now. */
  function HitsOn(ws: seq<Request>, i: nat): (hits: seq<nat>)
    requires i < |ws|
    ensures Within(hits, |ws|)
  {
    var hits := Hits(OpOf(ws[i]), Ops(ws[i + 1..]));
    seq(|hits|, k requires 0 <= k < |hits| => i + 1 + hits[k])
  }

  datatype Phase = Idle | Subscribed | Live | Left

  /** The database content, the hub, and the client with its own copy.  A writer commits first and publishes its
      event later, so that events may come in another order than their writes: `committed` lists the writes, and
      `published` the positions of those whose events are out.  `from` events were out when the client
      subscribed, and `clean` when it lost an event for the last time; `snap` writes were committed when it took
      its snapshot `base`, and `got` lists what it was given since. */
  datatype System = System(tree: Fields, hub: State<nat, nat>, phase: Phase, replica: Fields,
                           committed: seq<Request>, published: seq<nat>,
                           from: nat, clean: nat, snap: nat, base: Fields, got: seq<Receipt>)

  /** The steps, those of the client on stream path `path` with subscriber `me` among them. */
  datatype Action =
    | Commit(w: Request)
    | Announce(i: nat)
    | Connect
    | Snapshot
    | Deliver
    | Disconnect
    | Others(step: Step<nat, nat>)

  function Prefix(path: string): string {
    EventPath(path)
  }

  function Inbox(s: System, me: nat): Chan<nat>
    requires me in s.hub.chans
  {
    s.hub.chans[me]
  }

  function Lost(hub: State<nat, nat>, me: nat): nat {
    if me in hub.chans then hub.chans[me].dropped else 0
  }

  /** The client is given an event and applies it. */
  function Give(s: System, ev: Event<nat>, hub: State<nat, nat>): System
    requires ev.data < |s.committed|
  {
    s.(hub := hub, replica := Apply(Decode(Wire(s.committed, ev)), s.replica),
       got := s.got + [Receipt(ev.data, HitsOn(s.committed, ev.data))])
  }

  function Act(s: System, a: Action, path: string, me: nat): System {
    match a
    case Commit(w) =>
      s.(tree := Apply(OpOf(w), s.tree), committed := s.committed + [w])
    case Announce(i) =>
      if i < |s.committed| && i !in s.published then
        var hub := Next(s.hub, Publish(EventOf(s.committed[i], i)));
        s.(hub := hub, published := s.published + [i],
           clean := if Lost(hub, me) > Lost(s.hub, me) then |s.published| + 1 else s.clean)
      else s
    case Connect =>
      if s.phase.Idle? then
        s.(hub := Next(s.hub, Subscribe(me, Prefix(path))), phase := Subscribed,
           from := |s.published|, clean := |s.published|)
      else s
    case Snapshot =>
      if s.phase.Subscribed? then
        var copy := match Fetch(s.tree, SplitPath(Prefix(path)))
          case Some(v) => Apply(Decode(Event("put", Prefix(path), v)), map[])
          case None => map[];
        s.(phase := Live, replica := copy, snap := |s.committed|, base := copy)
      else s
    case Deliver =>
      if s.phase.Live? && me in s.hub.chans && Inbox(s, me).buf != [] && Inbox(s, me).buf[0].data < |s.committed| then
        Give(s, Inbox(s, me).buf[0], Next(s.hub, Receive(me)))
      else s
    case Disconnect =>
      if s.phase.Subscribed? || s.phase.Live? then s.(hub := Next(s.hub, Unsubscribe(me)), phase := Left) else s
    case Others(step) =>
      if step.Publish? || step.k == me then s else s.(hub := Next(s.hub, step))
  }

  function Initial(tree: Fields): System {
    System(tree, State({}, map[]), Idle, map[], [], [], 0, 0, 0, map[], [])
  }

  /** A run on a database with content `tree` and no subscribers. */
  function After(actions: seq<Action>, tree: Fields, path: string, me: nat): System {
    if actions == [] then Initial(tree)
    else Act(After(actions[..|actions| - 1], tree, path, me), actions[|actions| - 1], path, me)
  }

  // ----- what a stream is sent -----

  /** The event of the write is sent to a stream on `path`. */
  predicate Sent(path: string, w: Request) {
    Matches(Prefix(path), EventPath(w.path))
  }

  lemma MatchesSegments(path: string, w: Request)
    ensures Sent(path, w) <==> SentAt(SplitPath(path), OpOf(w))
  {
    EventNamesPath(path);
    EventNamesPath(w.path);
    MatchesIsRelated(SplitPath(path), SplitPath(w.path));
  }

  /** The positions of the writes whose events are sent to the stream. */
  function SentTo(path: string, ws: seq<Request>): set<nat> {
    SentOf(SplitPath(path), Ops(ws))
  }

  // ----- reading an event late -----

  lemma DecodesEdit(path: string, e: Edit)
    ensures Decode(Event(KindOf(e), EventPath(path), Payload(e))) == Op(SplitPath(path), e)
  {
    EventNamesPath(path);
  }

  lemma SameKind(op: Op, later: seq<Op>)
    ensures KindOf(ReadAfter(op, later).edit) == KindOf(op.edit)
  {
  }

  lemma DecodesBack(ws: seq<Request>, i: nat)
    requires i < |ws|
    ensures Decode(Wire(ws, EventOf(ws[i], i))) == ReadIn(ws, i)
  {
    SameKind(OpOf(ws[i]), Ops(ws[i + 1..]));
    DecodesEdit(ws[i].path, ReadIn(ws, i).edit);
  }

  lemma ShiftBehind(ws: seq<Request>, i: nat, hits: seq<nat>, all: seq<nat>)
    requires i < |ws| && Within(hits, |ws| - i - 1)
    requires |all| == |hits| && forall k | 0 <= k < |all| :: all[k] == i + 1 + hits[k]
    requires forall h | h in hits :: OpOf(ws[i]).path <= Ops(ws[i + 1..])[h].path
    ensures Behind(Ops(ws), Receipt(i, all))
  {
    forall h | h in all
      ensures i < h < |ws| && OpOf(ws[i]).path <= OpOf(ws[h]).path
    {
      var k :| 0 <= k < |all| && all[k] == h;
      assert hits[k] in hits && Ops(ws[i + 1..])[hits[k]] == OpOf(ws[h]);
    }
  }

  lemma ShiftPicked(ws: seq<Request>, i: nat, hits: seq<nat>, all: seq<nat>)
    requires i < |ws| && Within(hits, |ws| - i - 1)
    requires |all| == |hits| && forall k | 0 <= k < |all| :: all[k] == i + 1 + hits[k]
    ensures Within(all, |ws|) && Pick(Ops(ws), all) == Pick(Ops(ws[i + 1..]), hits)
  {
  }

  lemma PickFirst(ops: seq<Op>, i: nat, order: seq<nat>)
    requires i < |ops| && Within(order, |ops|)
    ensures Within([i] + order, |ops|) && Pick(ops, [i] + order) == [ops[i]] + Pick(ops, order)
  {
  }

  /** Applying an event is carrying out its write and then the writes that were in its data already. */
  lemma Received(ws: seq<Request>, i: nat, copy: Fields)
    requires i < |ws|
    ensures Behind(Ops(ws), Receipt(i, HitsOn(ws, i)))
    ensures Apply(Decode(Wire(ws, EventOf(ws[i], i))), copy)
         == Run(Pick(Ops(ws), [i] + HitsOn(ws, i)), copy)
  {
    var op, later := OpOf(ws[i]), Ops(ws[i + 1..]);
    var hits := Pick(later, Hits(op, later));
    DecodesBack(ws, i);
    LateRead(op, later, copy);
    HitsBelow(op, later);
    ShiftBehind(ws, i, Hits(op, later), HitsOn(ws, i));
    ShiftPicked(ws, i, Hits(op, later), HitsOn(ws, i));
    PickFirst(Ops(ws), i, HitsOn(ws, i));
    RunAppend([op], hits, copy);
    RunLast([], op, copy);
    assert [] + [op] == [op];
  }

  // ----- what holds in every reachable state -----

  function Datas(buf: seq<Event<nat>>): seq<nat> {
    seq(|buf|, k requires 0 <= k < |buf| => buf[k].data)
  }

  predicate EndsIn(a: seq<nat>, b: seq<nat>) {
    |b| <= |a| && a[|a| - |b|..] == b
  }

  /** Writes are published once, and those that were out when the client subscribed precede the snapshot. */
  predicate Recorded(s: System, tree: Fields) {
    && s.tree == Run(Ops(s.committed), tree)
    && Within(s.published, |s.committed|) && Distinct(s.published)
    && s.from <= s.clean <= |s.published| && s.snap <= |s.committed|
    && (s.phase.Live? ==> Within(s.published[..s.from], s.snap))
    && (s.phase.Idle? || s.phase.Subscribed? ==> s.got == [])
  }

  /** The client's subscriber is registered, and its queue holds events of writes. */
  predicate Tuned(s: System, path: string, me: nat) {
    && me in s.hub.chans && me in s.hub.subs
    && Inbox(s, me).prefix == Prefix(path) && Inbox(s, me).open
    && forall k | 0 <= k < |Inbox(s, me).buf| ::
         var ev := Inbox(s, me).buf[k]; ev.data < |s.committed| && ev == EventOf(s.committed[ev.data], ev.data)
  }

  /** What the client was given and what is queued for it ends in all that was sent to it since its last loss, and is
      all that was sent to it if there was none. */
  predicate Complete(accepted: seq<nat>, published: seq<nat>, from: nat, clean: nat, dropped: nat, keep: set<nat>)
    requires from <= clean <= |published|
  {
    && EndsIn(accepted, Only(published[clean..], keep))
    && (dropped == 0 ==> clean == from && accepted == Only(published[from..], keep))
  }

  predicate Counted(s: System, path: string, me: nat)
    requires me in s.hub.chans && s.from <= s.clean <= |s.published|
  {
    Complete(Ids(s.got) + Datas(Inbox(s, me).buf), s.published, s.from, s.clean, Inbox(s, me).dropped,
             SentTo(path, s.committed))
  }

  /** The copy is the snapshot with all that was given since. */
  predicate Copied(s: System, tree: Fields, path: string)
    requires s.snap <= |s.committed|
  {
    && Fetch(s.base, SplitPath(path)) == Fetch(Run(Ops(s.committed[..s.snap]), tree), SplitPath(path))
    && (forall k | 0 <= k < |s.got| :: Behind(Ops(s.committed), s.got[k]))
    && Within(Flat(s.got), |s.committed|)
    && s.replica == Run(Pick(Ops(s.committed), Flat(s.got)), s.base)
  }

  predicate Good(s: System, tree: Fields, path: string, me: nat) {
    && Recorded(s, tree)
    && (s.phase.Idle? ==> me !in s.hub.chans && me !in s.hub.subs)
    && (s.phase.Subscribed? || s.phase.Live? ==> Tuned(s, path, me) && Counted(s, path, me))
    && (s.phase.Live? ==> Copied(s, tree, path))
  }

  /** The snapshot reads back as what was stored. */
  lemma SnapshotFaithful(s: System, path: string, me: nat)
    requires s.phase.Subscribed?
    ensures Fetch(Act(s, Snapshot, path, me).replica, SplitPath(path)) == Fetch(s.tree, SplitPath(path))
  {
    var q := SplitPath(path);
    EventNamesPath(path);
    var none: Fields := map[];
    match Fetch(s.tree, q)
    case Some(v) =>
      SubtreeProjection(Op(q, Put(v)), none, q);
      ProjectCases(Put(v), q, q, Fetch(none, q));
    case None =>
      LookupNothing(q[1..]);
  }

  lemma SnapshotCopied(s: System, tree: Fields, path: string, me: nat)
    requires Recorded(s, tree) && s.phase.Subscribed?
    ensures var s' := Act(s, Snapshot, path, me); Recorded(s', tree) && Copied(s', tree, path)
  {
    var s' := Act(s, Snapshot, path, me);
    SnapshotFaithful(s, path, me);
    assert s.committed[..s'.snap] == s.committed;
    assert Pick(Ops(s.committed), []) == [];
  }

  lemma SnapshotGood(s: System, tree: Fields, path: string, me: nat)
    requires Good(s, tree, path, me)
    ensures Good(Act(s, Snapshot, path, me), tree, path, me)
  {
    if s.phase.Subscribed? {
      var s' := Act(s, Snapshot, path, me);
      SnapshotCopied(s, tree, path, me);
      assert Tuned(s', path, me) && Counted(s', path, me);
    }
  }

  /** Later writes change neither what the earlier ones sent nor what they did. */
  lemma {:induction false} OnlyKept(path: string, ws: seq<Request>, w: Request, order: seq<nat>)
    requires Within(order, |ws|)
    ensures Only(order, SentTo(path, ws + [w])) == Only(order, SentTo(path, ws))
    decreases |order|
  {
    if order != [] {
      var i := order[|order| - 1];
      OnlyKept(path, ws, w, order[..|order| - 1]);
      assert Ops(ws + [w])[i] == Ops(ws)[i];
    }
  }

  lemma CommitCopied(s: System, w: Request, tree: Fields, path: string)
    requires s.snap <= |s.committed| && Copied(s, tree, path)
    ensures Copied(s.(tree := Apply(OpOf(w), s.tree), committed := s.committed + [w]), tree, path)
  {
    var ws := s.committed + [w];
    assert ws[..s.snap] == s.committed[..s.snap];
    assert Pick(Ops(ws), Flat(s.got)) == Pick(Ops(s.committed), Flat(s.got));
    forall k | 0 <= k < |s.got|
      ensures Behind(Ops(ws), s.got[k])
    {
      assert Behind(Ops(s.committed), s.got[k]);
    }
  }

  lemma CommitGood(s: System, w: Request, tree: Fields, path: string, me: nat)
    requires Good(s, tree, path, me)
    ensures Good(Act(s, Commit(w), path, me), tree, path, me)
  {
    CommitRecorded(s, w, tree, path, me);
    if s.phase.Subscribed? || s.phase.Live? {
      CommitCounted(s, w, tree, path, me);
    }
    if s.phase.Live? {
      CommitCopied(s, w, tree, path);
    }
  }

  lemma CommitRecorded(s: System, w: Request, tree: Fields, path: string, me: nat)
    requires Recorded(s, tree)
    ensures Recorded(Act(s, Commit(w), path, me), tree)
  {
    assert Ops(s.committed + [w]) == Ops(s.committed) + [OpOf(w)];
    RunLast(Ops(s.committed), OpOf(w), tree);
  }

  lemma CommitCounted(s: System, w: Request, tree: Fields, path: string, me: nat)
    requires Recorded(s, tree) && Tuned(s, path, me) && Counted(s, path, me)
    ensures var s' := Act(s, Commit(w), path, me); Tuned(s', path, me) && Counted(s', path, me)
  {
    OnlyKept(path, s.committed, w, s.published[s.clean..]);
    OnlyKept(path, s.committed, w, s.published[s.from..]);
  }

  lemma AnnounceRecorded(s: System, i: nat, tree: Fields, path: string, me: nat)
    requires Recorded(s, tree) && i < |s.committed| && i !in s.published
    ensures Recorded(Act(s, Announce(i), path, me), tree)
  {
    assert Act(s, Announce(i), path, me).published[..s.from] == s.published[..s.from];
  }

  /** One more position at the end of both. */
  lemma EndsInMore(a: seq<nat>, b: seq<nat>, i: nat)
    requires EndsIn(a, b)
    ensures EndsIn(a + [i], b + [i])
  {
  }

  lemma AnnounceOffered(s: System, i: nat, path: string, me: nat)
    requires Tuned(s, path, me) && i < |s.committed| && i !in s.published
    ensures var s' := Act(s, Announce(i), path, me);
      && me in s'.hub.chans && Inbox(s', me) == Offer(Inbox(s, me), EventOf(s.committed[i], i))
      && Tuned(s', path, me)
  {
    var s', c := Act(s, Announce(i), path, me), Inbox(s, me);
    var c' := Inbox(s', me);
    assert c' == Offer(c, EventOf(s.committed[i], i));
    forall k | 0 <= k < |c'.buf|
      ensures var ev := c'.buf[k]; ev.data < |s.committed| && ev == EventOf(s.committed[ev.data], ev.data)
    {
      assert k < |c.buf| ==> c'.buf[k] == c.buf[k];
    }
  }

  lemma DatasMore(c: Chan<nat>, c': Chan<nat>, ev: Event<nat>, got: seq<nat>)
    requires c' == Offer(c, ev) && c.open && c'.dropped == c.dropped
    ensures got + Datas(c'.buf) == got + Datas(c.buf) + if Matches(c.prefix, ev.path) then [ev.data] else []
  {
  }

  /** One more event is published, and accepted if it is sent. */
  lemma CompleteMore(accepted: seq<nat>, published: seq<nat>, from: nat, clean: nat, dropped: nat, keep: set<nat>,
                     i: nat)
    requires from <= clean <= |published| && Complete(accepted, published, from, clean, dropped, keep)
    ensures Complete(accepted + if i in keep then [i] else [], published + [i], from, clean, dropped, keep)
  {
    LatePart(published, clean, i, keep);
    LatePart(published, from, i, keep);
    if i in keep {
      EndsInMore(accepted, Only(published[clean..], keep), i);
    } else {
      assert accepted + [] == accepted;
    }
  }

  /** An event that is lost starts the count again. */
  lemma CompleteLoss(accepted: seq<nat>, published: seq<nat>, from: nat, dropped: nat, keep: set<nat>)
    requires from <= |published| && dropped > 0
    ensures Complete(accepted, published, from, |published|, dropped, keep)
  {
    assert published[|published|..] == [];
  }

  lemma AnnounceCounted(s: System, i: nat, tree: Fields, path: string, me: nat)
    requires Recorded(s, tree) && Tuned(s, path, me) && Counted(s, path, me)
    requires i < |s.committed| && i !in s.published
    ensures var s' := Act(s, Announce(i), path, me);
      s'.from <= s'.clean <= |s'.published| && me in s'.hub.chans && Counted(s', path, me)
  {
    var s', keep := Act(s, Announce(i), path, me), SentTo(path, s.committed);
    var c, ids := Inbox(s, me), Ids(s.got);
    AnnounceOffered(s, i, path, me);
    if Inbox(s', me).dropped > c.dropped {
      CompleteLoss(ids + Datas(c.buf), s'.published, s.from, Inbox(s', me).dropped, keep);
    } else {
      DatasMore(c, Inbox(s', me), EventOf(s.committed[i], i), ids);
      MatchesSegments(path, s.committed[i]);
      CompleteMore(ids + Datas(c.buf), s.published, s.from, s.clean, c.dropped, keep, i);
    }
  }

  lemma LatePart(published: seq<nat>, k: nat, i: nat, keep: set<nat>)
    requires k <= |published|
    ensures Only((published + [i])[k..], keep) == Only(published[k..], keep) + if i in keep then [i] else []
  {
    assert (published + [i])[k..] == published[k..] + [i];
    OnlyLast(published[k..], i, keep);
  }

  lemma AnnounceGood(s: System, i: nat, tree: Fields, path: string, me: nat)
    requires Good(s, tree, path, me)
    ensures Good(Act(s, Announce(i), path, me), tree, path, me)
  {
    if i < |s.committed| && i !in s.published {
      AnnounceRecorded(s, i, tree, path, me);
      if s.phase.Subscribed? || s.phase.Live? {
        AnnounceOffered(s, i, path, me);
        AnnounceCounted(s, i, tree, path, me);
      }
    }
  }

  lemma GiveCopied(s: System, i: nat, hub: State<nat, nat>, tree: Fields, path: string)
    requires s.snap <= |s.committed| && Copied(s, tree, path) && i < |s.committed|
    ensures Copied(Give(s, EventOf(s.committed[i], i), hub), tree, path)
  {
    var hits := HitsOn(s.committed, i);
    Received(s.committed, i, s.replica);
    GotMore(Ops(s.committed), s.got, Receipt(i, hits), s.base);
  }

  lemma GotMore(ops: seq<Op>, got: seq<Receipt>, r: Receipt, base: Fields)
    requires Within(Flat(got), |ops|) && Behind(ops, r) && Within(r.hits, |ops|)
    requires forall k | 0 <= k < |got| :: Behind(ops, got[k])
    ensures Within(Flat(got + [r]), |ops|) && forall k | 0 <= k < |got + [r]| :: Behind(ops, (got + [r])[k])
    ensures Run(Pick(ops, Flat(got + [r])), base) == Run(Pick(ops, [r.i] + r.hits), Run(Pick(ops, Flat(got)), base))
  {
    FlatLast(got, r);
    PickMore(ops, Flat(got), [r.i] + r.hits, base);
  }

  /** The first event of the queue moves to those that were given. */
  lemma FirstGiven(got: seq<Receipt>, r: Receipt, buf: seq<Event<nat>>)
    requires buf != [] && buf[0].data == r.i
    ensures Ids(got + [r]) + Datas(buf[1..]) == Ids(got) + Datas(buf)
  {
  }

  lemma DeliverTuned(s: System, path: string, me: nat)
    requires Tuned(s, path, me) && s.phase.Live? && Inbox(s, me).buf != []
    ensures var s' := Act(s, Deliver, path, me);
      Tuned(s', path, me) && Inbox(s', me).buf == Inbox(s, me).buf[1..] && Inbox(s', me).dropped == Inbox(s, me).dropped
  {
  }

  lemma DeliverGood(s: System, tree: Fields, path: string, me: nat)
    requires Good(s, tree, path, me)
    ensures Good(Act(s, Deliver, path, me), tree, path, me)
  {
    if s.phase.Live? && Inbox(s, me).buf != [] {
      var buf := Inbox(s, me).buf;
      GiveCopied(s, buf[0].data, Next(s.hub, Receive(me)), tree, path);
      DeliverTuned(s, path, me);
      FirstGiven(s.got, Receipt(buf[0].data, HitsOn(s.committed, buf[0].data)), buf);
    }
  }

  lemma ConnectGood(s: System, tree: Fields, path: string, me: nat)
    requires Good(s, tree, path, me)
    ensures Good(Act(s, Connect, path, me), tree, path, me)
  {
  }

  /** What other subscribers do is none of the client's business. */
  lemma OthersApart(hub: State<nat, nat>, step: Step<nat, nat>, me: nat)
    requires !step.Publish? && step.k != me
    ensures var hub' := Next(hub, step);
      && (me in hub'.chans <==> me in hub.chans) && (me in hub'.subs <==> me in hub.subs)
      && (me in hub.chans ==> hub'.chans[me] == hub.chans[me])
  {
  }

  lemma SameInbox(s: System, hub: State<nat, nat>, tree: Fields, path: string, me: nat)
    requires Good(s, tree, path, me)
    requires (me in hub.chans <==> me in s.hub.chans) && (me in hub.subs <==> me in s.hub.subs)
    requires me in hub.chans ==> hub.chans[me] == s.hub.chans[me]
    ensures Good(s.(hub := hub), tree, path, me)
  {
    var s' := s.(hub := hub);
    if s.phase.Subscribed? || s.phase.Live? {
      assert Tuned(s', path, me);
      assert Counted(s', path, me);
    }
  }

  lemma OthersGood(s: System, step: Step<nat, nat>, tree: Fields, path: string, me: nat)
    requires Good(s, tree, path, me) && !step.Publish? && step.k != me
    ensures Good(s.(hub := Next(s.hub, step)), tree, path, me)
  {
    OthersApart(s.hub, step, me);
    SameInbox(s, Next(s.hub, step), tree, path, me);
  }

  /** In every reachable state the copy of a live client is its snapshot with the events it was given, and these with
      the queued ones are all that was sent to it since its last loss. */
  lemma {:induction false} StaysGood(actions: seq<Action>, tree: Fields, path: string, me: nat)
    ensures Good(After(actions, tree, path, me), tree, path, me)
    decreases |actions|
  {
    if actions != [] {
      var s := After(actions[..|actions| - 1], tree, path, me);
      StaysGood(actions[..|actions| - 1], tree, path, me);
      match actions[|actions| - 1] {
        case Commit(w) => CommitGood(s, w, tree, path, me);
        case Announce(i) => AnnounceGood(s, i, tree, path, me);
        case Connect => ConnectGood(s, tree, path, me);
        case Snapshot => SnapshotGood(s, tree, path, me);
        case Deliver => DeliverGood(s, tree, path, me);
        case Disconnect =>
        case Others(step) =>
          if !step.Publish? && step.k != me {
            OthersGood(s, step, tree, path, me);
          }
      }
    }
  }
}
