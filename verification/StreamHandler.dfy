/** The stream handler on the objects of the program: ask the rules, subscribe, write the snapshot, then forward
    events.  What other requests do in between is the business of module Stream. */
module StreamHandler {
  import opened Options
  import opened Paths
  import opened JsonTree
  import opened Heap
  import opened HubModel
  import opened Database
  import Hub
  import RuleSet
  import Evaluator

  /** The subscription leaves the database alone. */
  method Join(db: DB, hub: Hub.Hub<Val>, prefix: string) returns (sub: Hub.Subscriber<Val>)
    requires db.Valid() && db.hub == hub
    modifies hub
    ensures db.Valid() && unchanged(db)
    ensures fresh(sub) && sub in hub.known
    ensures hub.trace == old(hub.trace) + [Subscribe(sub, prefix)]
  {
    sub := hub.Subscribe(prefix);
    assert unchanged(db.layout.Maps()) && unchanged(db.layout.inSlices);
    assert ContentOf(db.layout) == old(ContentOf(db.layout));
    assert hub.Channels() == old(hub.Channels()) + {sub.ch};
  }

  /** The snapshot: a put event with a copy of the value, unless there is none. */
  method First(db: DB, prefix: string) returns (written: seq<Event<Val>>, ghost l: Layout)
    requires db.Valid()
    ensures db.Valid()
    ensures SnapshotOf(db.tree, prefix, written, l)
  {
    var found;
    found, l := db.Get(prefix);
    assert ContentOf(db.layout) == old(ContentOf(db.layout));
    written := match found case NotFound => [] case Value(v) => [Event("put", prefix, v)];
  }

  /** A put event with what the content has at the path, or nothing if it has nothing there. */
  ghost predicate SnapshotOf(tree: Fields, prefix: string, written: seq<Event<Val>>, l: Layout)
    reads l.Maps(), l.inSlices
  {
    match Fetch(tree, SplitPath(prefix))
    case None => written == []
    case Some(j) =>
      |written| == 1 && written[0] == Event("put", prefix, written[0].data) && Tracks(written[0].data, j, l)
  }

  /** The handler up to its loop: without leave of the rules nothing happens; with it, the subscription comes before
      the snapshot. */
  method Open(db: DB, hub: Hub.Hub<Val>, rules: RuleSet.RuleSet, auth: Evaluator.AuthCtx, path: string)
    returns (allowed: bool, sub: Hub.Subscriber?<Val>, written: seq<Event<Val>>, ghost l: Layout)
    requires db.Valid() && db.hub == hub
    modifies hub
    ensures db.Valid() && unchanged(db)
    ensures allowed ==> rules.root.Some? && RuleSet.Granted(rules.root.value, SplitPath(path), RuleSet.Read, auth)
    ensures rules.root.Some? && RuleSet.OneWildcard(rules.root.value) ==>
      (allowed <==> RuleSet.Granted(rules.root.value, SplitPath(path), RuleSet.Read, auth))
    ensures !allowed ==> sub == null && written == [] && unchanged(hub)
    ensures allowed ==> sub != null && fresh(sub) && sub in hub.known
    ensures allowed ==> hub.trace == old(hub.trace) + [Subscribe(sub, EventPath(path))]
    ensures allowed ==> SnapshotOf(db.tree, EventPath(path), written, l)
  {
    sub, written, l := null, [], NO_LAYOUT;
    EventNamesPath(path);
    ghost var walk;
    allowed, walk := rules.Check(EventPath(path), RuleSet.Read, auth);
    if allowed {
      sub := Join(db, hub, EventPath(path));
      written, l := First(db, EventPath(path));
    }
  }

  /** One round of the loop that finds an event or nothing: what is received is written. */
  method Forward(hub: Hub.Hub<Val>, sub: Hub.Subscriber<Val>, written: seq<Event<Val>>)
    returns (written': seq<Event<Val>>)
    requires hub.Valid() && sub in hub.known
    modifies hub`trace, sub.ch
    ensures hub.Valid() && hub.trace == old(hub.trace) + [Receive(sub)]
    ensures written' == written + old(sub.ch.buf)[..if old(sub.ch.buf) == [] then 0 else 1]
  {
    var ok, evs := hub.Receive(sub);
    written' := if ok then written + evs else written;
  }
}
