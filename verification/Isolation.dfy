/** What Get hands out is cut off from the database for good. */
module Isolation {
  import opened Options
  import opened Paths
  import opened JsonTree
  import opened TreeLaws
  import opened Heap
  import opened Database
  import PushId

  /** None of the objects is one of the database or the hub. */
  ghost predicate Isolated(db: DB, kept: set<object>)
    reads db, db.hub
  {
    kept !! db.Footprint()
  }

  /** What is found at a path is a tracked value. */
  ghost predicate ReadOf(found: Found, v: Option<Json>, l: Layout)
    reads l.Objects()
  {
    match v
    case None => found == NotFound
    case Some(j) => found.Value? && Tracks(found.v, j, l)
  }

  /** Get: what is found stands for the stored value and consists of new objects, none of the database or the
      hub. */
  method GetIsolated(db: DB, path: string) returns (found: Found, ghost l: Layout)
    requires db.Valid()
    ensures ReadOf(found, Fetch(db.tree, SplitPath(path)), l)
    ensures Isolated(db, l.Objects()) && forall o | o in l.Objects() :: fresh(o)
  {
    found, l := db.Get(path);
    if found.NotFound? {
      l := NO_LAYOUT;
    }
  }

  /** Where the maps lie after `op`, and which of them it has written. */
  ghost predicate Rebuilt(l: Layout, held: Content, l': Layout, op: Op, part: Layout)
    reads l.Maps()
  {
    Placed(l, l', op, part) && ChangedBy(l, held, op)
  }

  /** Objects that are not in the layout stay out of it when it grows by `part` and new maps. */
  lemma StaysOut(kept: set<object>, was: Layout, part: Layout, now: Layout)
    requires kept !! was.Objects() && kept !! part.Objects()
    requires now.inSlices <= was.inSlices + part.inSlices
    requires forall m | m in now.Maps() && m !in was.Maps() && m !in part.Maps() :: (m as object) !in kept
    ensures kept !! now.Objects()
  {
  }

  /** Set touches no isolated object, and leaves it isolated. */
  method SetKeepsReads(db: DB, path: string, value: Val, ghost j: Json, ghost part: Layout, ghost kept: set<object>)
    requires db.Valid() && Tracks(value, j, part) && db.Separate(part)
    requires Isolated(db, kept) && kept !! part.Objects()
    modifies db`root, db`tree, db`layout, db.layout.Maps(), db.HubObjects()
    ensures db.Valid() && db.tree == Apply(Op(SplitPath(path), Put(j)), old(db.tree))
    ensures Rebuilt(old(db.layout), old(ContentOf(db.layout)), db.layout, Op(SplitPath(path), Put(j)), part)
    ensures db.Grown(part) && db.HubObjects() == old(db.HubObjects())
    ensures Isolated(db, kept) && unchanged(kept)
  {
    db.Set(path, value, j, part);
    StaysOut(kept, old(db.layout), part, db.layout);
  }

  /** Update likewise. */
  method UpdateKeepsReads(db: DB, path: string, value: MapNode, ghost js: Fields, ghost part: Layout,
                          ghost kept: set<object>)
    requires db.Valid() && Tracks(MapRef(value), Obj(js), part) && db.Separate(part)
    requires Isolated(db, kept) && kept !! part.Objects()
    modifies db`root, db`tree, db`layout, db.layout.Maps(), db.HubObjects()
    ensures db.Valid() && db.tree == Apply(Op(SplitPath(path), Patch(js)), old(db.tree))
    ensures Rebuilt(old(db.layout), old(ContentOf(db.layout)), db.layout, Op(SplitPath(path), Patch(js)), part)
    ensures db.Grown(part) && db.HubObjects() == old(db.HubObjects())
    ensures Isolated(db, kept) && unchanged(kept)
  {
    db.Update(path, value, js, part);
    StaysOut(kept, old(db.layout), part, db.layout);
  }

  /** Delete likewise. */
  method DeleteKeepsReads(db: DB, path: string, ghost kept: set<object>)
    requires db.Valid() && Isolated(db, kept)
    modifies db`root, db`tree, db`layout, db.layout.Maps(), db.HubObjects()
    ensures db.Valid() && db.tree == Apply(Op(SplitPath(path), Delete), old(db.tree))
    ensures Rebuilt(old(db.layout), old(ContentOf(db.layout)), db.layout, Op(SplitPath(path), Delete), NO_LAYOUT)
    ensures db.Grown(NO_LAYOUT) && db.HubObjects() == old(db.HubObjects())
    ensures Isolated(db, kept) && unchanged(kept)
  {
    db.Delete(path);
    StaysOut(kept, old(db.layout), NO_LAYOUT, db.layout);
  }

  /** Push likewise. */
  method PushKeepsReads(db: DB, path: string, value: Val, gen: PushId.Generator, now: nat, random: seq<nat>,
                        ghost j: Json, ghost part: Layout, ghost kept: set<object>)
    returns (key: string)
    requires db.Valid() && Tracks(value, j, part) && db.Separate(part)
    requires gen.Valid() && |random| == 12 && db.Outside(gen, part)
    requires Isolated(db, kept) && kept !! part.Objects() && gen !in kept && gen.lastRand !in kept
    modifies db`root, db`tree, db`layout, db.layout.Maps(), db.HubObjects(), gen, gen.lastRand
    ensures db.Valid() && gen.Valid() && db.tree == Apply(Op(SplitPath(path) + [key], Put(j)), old(db.tree))
    ensures Rebuilt(old(db.layout), old(ContentOf(db.layout)), db.layout, Op(SplitPath(path) + [key], Put(j)), part)
    ensures db.Grown(part) && db.HubObjects() == old(db.HubObjects())
    ensures gen.Model() == PushId.Next(old(gen.Model()), PushId.Call(now, PushId.Reduced(random)))
    ensures key == PushId.Id(gen.Model())
    ensures Isolated(db, kept) && unchanged(kept)
  {
    key := db.Push(path, value, gen, now, random, j, part);
    StaysOut(kept, old(db.layout), part, db.layout);
  }

  /** A value none of whose objects was touched is what it was. */
  twostate lemma UntouchedTracks(v: Val, j: Json, l: Layout)
    requires old(Tracks(v, j, l)) && unchanged(l.Objects())
    ensures Tracks(v, j, l)
  {
    assert forall m | m in l.Maps() :: m as object in l.Objects();
    assert ContentOf(l) == old(ContentOf(l));
  }

  // ----- any series of calls -----

  type Random = r: seq<nat> | |r| == 12 witness seq(12, _ => 0)

  /** A call that changes the database, with the value `v` that the caller hands over, what it stands for and
      where its maps lie. */
  datatype Mutation =
    | SetCall(path: string, v: Val, j: Json, part: Layout)
    | UpdateCall(path: string, m: MapNode, js: Fields, part: Layout)
    | DeleteCall(path: string)
    | PushCall(path: string, v: Val, now: nat, random: Random, j: Json, part: Layout)

  ghost function PartOf(c: Mutation): Layout {
    if c.DeleteCall? then NO_LAYOUT else c.part
  }

  /** The objects that the caller hands over. */
  ghost function Handed(c: Mutation): set<object> {
    PartOf(c).Objects()
  }

  /** The value that is handed over, if there is one, stands for what the call says. */
  ghost predicate Intact(c: Mutation)
    reads Handed(c)
  {
    match c
    case SetCall(_, v, j, part) => Tracks(v, j, part)
    case UpdateCall(_, m, js, part) => Tracks(MapRef(m), Obj(js), part)
    case DeleteCall(_) => true
    case PushCall(_, v, _, _, j, part) => Tracks(v, j, part)
  }

  /** What the call does to the content; `key` is the key that Push returns. */
  function Effect(c: Mutation, key: string): Op {
    match c
    case SetCall(path, _, j, _) => Op(SplitPath(path), Put(j))
    case UpdateCall(path, _, js, _) => Op(SplitPath(path), Patch(js))
    case DeleteCall(path) => Op(SplitPath(path), Delete)
    case PushCall(path, _, _, _, j, _) => Op(SplitPath(path) + [key], Put(j))
  }

  /** What the calls do, given the keys that they return. */
  function Effects(calls: seq<Mutation>, keys: seq<string>): (ops: seq<Op>)
    requires |keys| == |calls|
    ensures |ops| == |calls|
  {
    if calls == [] then [] else [Effect(calls[0], keys[0])] + Effects(calls[1..], keys[1..])
  }

  /** The generator after the call. */
  function Ticked(c: Mutation, s: PushId.State): PushId.State
    requires s.Valid()
  {
    if c.PushCall? then PushId.Next(s, PushId.Call(c.now, PushId.Reduced(c.random))) else s
  }

  /** The key that the call returns; only Push returns one. */
  function KeyOf(c: Mutation, s: PushId.State): string
    requires s.Valid()
  {
    if c.PushCall? then PushId.Id(Ticked(c, s)) else ""
  }

  function KeysOf(calls: seq<Mutation>, s: PushId.State): (keys: seq<string>)
    requires s.Valid()
    ensures |keys| == |calls|
  {
    if calls == [] then [] else [KeyOf(calls[0], s)] + KeysOf(calls[1..], Ticked(calls[0], s))
  }

  /** The generator is apart from the objects. */
  ghost predicate Aside(gen: PushId.Generator, objs: set<object>) {
    gen !in objs && gen.lastRand !in objs
  }

  /** Database and generator are in order, and the objects are none of theirs. */
  ghost predicate Ready(db: DB, gen: PushId.Generator, objs: set<object>)
    reads db, db.layout.Maps(), db.layout.inSlices, db.HubObjects(), gen, gen.lastRand
  {
    db.Valid() && gen.Valid() && Isolated(db, objs) && Aside(gen, db.Footprint()) && Aside(gen, objs)
  }

  lemma IsolatedSeparate(db: DB, part: Layout)
    requires Isolated(db, part.Objects())
    ensures db.Separate(part)
  {
    assert forall m | m in db.layout.Maps() :: m as object in db.Footprint();
    assert forall m | m in part.Maps() :: m as object in part.Objects();
    assert db in db.Footprint();
  }

  lemma AsideOutside(db: DB, gen: PushId.Generator, part: Layout)
    requires Aside(gen, db.Footprint()) && Aside(gen, part.Objects())
    ensures db.Outside(gen, part)
  {
  }

  /** The layout stays apart from the generator, which is no map. */
  lemma AsideStays(gen: PushId.Generator, was: Layout, part: Layout, now: Layout)
    requires Aside(gen, was.inSlices) && Aside(gen, part.inSlices) && now.inSlices <= was.inSlices + part.inSlices
    ensures Aside(gen, now.Objects())
  {
  }

  /** One of the calls. */
  method Mutate(db: DB, gen: PushId.Generator, c: Mutation, ghost kept: set<object>) returns (key: string)
    requires Ready(db, gen, kept) && Ready(db, gen, Handed(c)) && Intact(c) && kept !! Handed(c)
    modifies db`root, db`tree, db`layout, db.layout.Maps(), db.HubObjects(), gen, gen.lastRand
    ensures Ready(db, gen, kept) && unchanged(kept)
    ensures db.Grown(PartOf(c)) && db.HubObjects() == old(db.HubObjects())
    ensures db.tree == Apply(Effect(c, key), old(db.tree))
    ensures Rebuilt(old(db.layout), old(ContentOf(db.layout)), db.layout, Effect(c, key), PartOf(c))
    ensures gen.Model() == Ticked(c, old(gen.Model())) && key == KeyOf(c, old(gen.Model()))
  {
    key := "";
    match c {
      case SetCall(path, v, j, part) =>
        IsolatedSeparate(db, part);
        SetKeepsReads(db, path, v, j, part, kept);
      case UpdateCall(path, m, js, part) =>
        IsolatedSeparate(db, part);
        UpdateKeepsReads(db, path, m, js, part, kept);
      case DeleteCall(path) =>
        DeleteKeepsReads(db, path, kept);
      case PushCall(path, v, now, random, j, part) =>
        IsolatedSeparate(db, part);
        AsideOutside(db, gen, part);
        key := PushKeepsReads(db, path, v, gen, now, random, j, part, kept);
    }
    AsideStays(gen, old(db.layout), PartOf(c), db.layout);
  }

  /** The objects that are handed over in a series of calls. */
  ghost function AllHanded(calls: seq<Mutation>): set<object> {
    if calls == [] then {} else Handed(calls[0]) + AllHanded(calls[1..])
  }

  ghost function AllMaps(calls: seq<Mutation>): set<MapNode> {
    if calls == [] then {} else PartOf(calls[0]).Maps() + AllMaps(calls[1..])
  }

  /** Every value that is handed over is intact, and no two share an object. */
  ghost predicate AllIntact(calls: seq<Mutation>)
    reads AllHanded(calls)
  {
    calls != [] ==> Intact(calls[0]) && Handed(calls[0]) !! AllHanded(calls[1..]) && AllIntact(calls[1..])
  }

  /** Any series of Set, Update, Delete and Push touches no isolated object; its effect is that of the operations one
      after the other. */
  method SeriesKeepsReads(db: DB, gen: PushId.Generator, calls: seq<Mutation>, ghost kept: set<object>)
    returns (keys: seq<string>)
    requires Ready(db, gen, kept + AllHanded(calls)) && AllIntact(calls) && kept !! AllHanded(calls)
    modifies db`root, db`tree, db`layout, db.layout.Maps(), db.HubObjects(), gen, gen.lastRand, AllMaps(calls)
    ensures Ready(db, gen, kept) && unchanged(kept)
    ensures keys == KeysOf(calls, old(gen.Model())) && db.tree == Run(Effects(calls, keys), old(db.tree))
    decreases |calls|
  {
    keys := [];
    if calls != [] {
      var rest := calls[1..];
      ghost var safe := kept + AllHanded(rest);
      var key := Mutate(db, gen, calls[0], safe);
      keys := SeriesKeepsReads(db, gen, rest, kept);
      RunFirst(Effect(calls[0], key), Effects(rest, keys), old(db.tree));
      keys := [key] + keys;
    }
  }

  lemma RunFirst(op: Op, ops: seq<Op>, tree: Fields)
    ensures Run([op] + ops, tree) == Run(ops, Apply(op, tree))
  {
    RunAppend([op], ops, tree);
    assert [op][..0] == [];
  }

  /** After any series of later calls, an isolated value that was read stands for what was stored when it was read,
      and is isolated still. */
  method EarlierReadKept(db: DB, gen: PushId.Generator, calls: seq<Mutation>, found: Found, ghost v: Option<Json>,
                         ghost l: Layout)
    returns (keys: seq<string>)
    requires ReadOf(found, v, l) && AllIntact(calls) && l.Objects() !! AllHanded(calls)
    requires Ready(db, gen, l.Objects() + AllHanded(calls))
    modifies db`root, db`tree, db`layout, db.layout.Maps(), db.HubObjects(), gen, gen.lastRand, AllMaps(calls)
    ensures ReadOf(found, v, l) && Ready(db, gen, l.Objects())
    ensures keys == KeysOf(calls, old(gen.Model())) && db.tree == Run(Effects(calls, keys), old(db.tree))
  {
    keys := SeriesKeepsReads(db, gen, calls, l.Objects());
  }
}
