/** What a reference that was handed over stands for: the account of shared data in `Sharing` holds on the heap. */
module References {
  import opened Options
  import opened Paths
  import opened JsonTree
  import opened TreeLaws
  import opened Heap
  import opened Database
  import opened Isolation
  import opened Sharing
  import PushId

  // ----- one reference -----

  /** The reference `v`, stored at `p`, follows the account `r`: while it is an object in the tree it is the one at
      `p`, and otherwise it stands for the value with what lies in `S`. */
  ghost predicate Follows(tree: Fields, l: Layout, v: Val, p: Path, r: Ref, S: set<object>)
    reads S
  {
    if r.attached && r.v.Obj? then Fetch(tree, p) == Some(r.v) && p in l.at && v == MapRef(l.at[p])
    else Stands(v, r.v, S)
  }

  /** The maps that the operation takes out of the tree, and what lies below slices. */
  ghost function LeftBy(l: Layout, op: Op): set<object> {
    l.inSlices + set r | r in l.at && Cleared(op, r) :: l.at[r] as object
  }

  /** An object is taken out of the tree exactly if the account detaches it. */
  lemma DetachedCleared(r: Ref, p: Path, op: Op)
    requires r.attached && r.v.Obj?
    ensures Touch(r, p, op).attached <==> !Cleared(op, p)
    ensures if Touch(r, p, op).attached then Touch(r, p, op).v.Obj? else Touch(r, p, op).v == r.v
  {
  }

  lemma Unattached(r: Ref, p: Path, op: Op)
    requires !(r.attached && r.v.Obj?)
    ensures Touch(r, p, op).v == r.v && !(Touch(r, p, op).attached && r.v.Obj?)
  {
  }

  /** What is overwritten or removed at one place is so below it, and none of it is written. */
  lemma ClearedBelow(op: Op, p: Path, r: Path)
    requires Cleared(op, p) && p <= r
    ensures Cleared(op, r) && !Written(op, r)
  {
    if op.edit.Patch? {
      assert r[|op.path|] == p[|op.path|];
    }
  }

  /** With its maps holding `held`, the database held `tree`. */
  ghost predicate Stood(root: Val, tree: Fields, l: Layout, held: Content)
    reads l.inSlices
  {
    forall now | now == held :: Fits(root, Obj(tree), l, now)
  }

  /** A database before a call and after it. */
  ghost predicate Stepped(root: Val, tree: Fields, l: Layout, held: Content, op: Op, part: Layout, root': Val,
                          l': Layout)
    reads l.Maps(), l.inSlices, l'.Maps(), l'.inSlices
  {
    forall now | now == l' :: SteppedTo(root, tree, l, held, op, part, root', now)
  }

  ghost predicate SteppedTo(root: Val, tree: Fields, l: Layout, held: Content, op: Op, part: Layout, root': Val,
                            l': Layout)
    reads l.Maps(), l.inSlices, l'.Maps(), l'.inSlices
  {
    && Stood(root, tree, l, held) && Rebuilt(l, held, l', op, part)
    && Tracks(root', Obj(Apply(op, tree)), l')
  }

  /** An object that stays in the tree. */
  lemma StaysThere(root: Val, tree: Fields, l: Layout, held: Content, op: Op, part: Layout, root': Val, l': Layout,
                   v: Val, p: Path, r: Ref, S: set<object>)
    requires Stepped(root, tree, l, held, op, part, root', l') && Follows(tree, l, v, p, r, S)
    requires r.attached && r.v.Obj? && Touch(r, p, op).attached
    ensures Follows(Apply(op, tree), l', v, p, Touch(r, p, op), S)
  {
    assert SteppedTo(root, tree, l, held, op, part, root', l');
    DetachedCleared(r, p, op);
    TouchReads(r, p, op, tree);
    assert PlacedAs(l, l', op, part);
    assert InPlace(l, l', op, p);
  }

  /** An object that is taken out of the tree. */
  lemma LeavesWhole(root: Val, tree: Fields, l: Layout, held: Content, op: Op, part: Layout, root': Val, l': Layout,
                    v: Val, p: Path, r: Ref, S: set<object>)
    requires Stepped(root, tree, l, held, op, part, root', l') && Follows(tree, l, v, p, r, S)
    requires r.attached && r.v.Obj? && !Touch(r, p, op).attached
    ensures Stands(v, r.v, LeftBy(l, op))
  {
    assert SteppedTo(root, tree, l, held, op, part, root', l');
    DetachedCleared(r, p, op);
    forall q | q in l.at && p <= q
      ensures l.at[q].fields == held[q] && l.at[q] in LeftBy(l, op)
    {
      ClearedBelow(op, p, q);
    }
    assert Fits(root, Obj(tree), l, held);
    HeldStands(root, Obj(tree), l, held, p, v, r.v, LeftBy(l, op));
  }

  lemma StepFollows(root: Val, tree: Fields, l: Layout, held: Content, op: Op, part: Layout, root': Val, l': Layout,
                    v: Val, p: Path, r: Ref, S: set<object>)
    requires Stepped(root, tree, l, held, op, part, root', l') && Follows(tree, l, v, p, r, S)
    ensures Follows(Apply(op, tree), l', v, p, Touch(r, p, op), S + LeftBy(l, op))
  {
    if !(r.attached && r.v.Obj?) {
      Unattached(r, p, op);
      StandsMore(v, r.v, S, S + LeftBy(l, op));
    } else if Touch(r, p, op).attached {
      DetachedCleared(r, p, op);
      StaysThere(root, tree, l, held, op, part, root', l', v, p, r, S);
    } else {
      DetachedCleared(r, p, op);
      LeavesWhole(root, tree, l, held, op, part, root', l', v, p, r, S);
      StandsMore(v, r.v, LeftBy(l, op), S + LeftBy(l, op));
    }
  }

  // ----- the data of an event -----

  /** The data `v` of an event for a write to `p` follows the account: the value that was put, the map of the values
      that were stored each under its key, or nil. */
  ghost predicate DataFollows(tree: Fields, l: Layout, v: Val, p: Path, sh: Shared, S: set<object>)
    reads S
  {
    match sh
    case Whole(r) => Follows(tree, l, v, p, r, S)
    case Entries(rs) =>
      && v.MapRef? && v.m in S && v.m.fields.Keys == rs.Keys
      && forall k | k in rs :: Follows(tree, l, v.m.fields[k], p + [k], rs[k], S)
    case Nothing => v == Leaf(Null)
  }

  lemma StepDataFollows(root: Val, tree: Fields, l: Layout, held: Content, op: Op, part: Layout, root': Val,
                        l': Layout, v: Val, p: Path, sh: Shared, S: set<object>)
    requires Stepped(root, tree, l, held, op, part, root', l') && DataFollows(tree, l, v, p, sh, S)
    ensures DataFollows(Apply(op, tree), l', v, p, Evolve(sh, p, op), S + LeftBy(l, op))
  {
    match sh
    case Whole(r) =>
      StepFollows(root, tree, l, held, op, part, root', l', v, p, r, S);
    case Entries(rs) =>
      forall k | k in rs
        ensures Follows(Apply(op, tree), l', v.m.fields[k], p + [k], Touch(rs[k], p + [k], op), S + LeftBy(l, op))
      {
        StepFollows(root, tree, l, held, op, part, root', l', v.m.fields[k], p + [k], rs[k], S);
      }
    case Nothing =>
  }

  /** What data that follows an account stands for. */
  lemma FollowsStands(root: Val, tree: Fields, l: Layout, v: Val, p: Path, r: Ref, S: set<object>)
    requires Tracks(root, Obj(tree), l) && Follows(tree, l, v, p, r, S)
    ensures Stands(v, r.v, S + l.Objects())
  {
    if r.attached && r.v.Obj? {
      TracksStands(root, Obj(tree), l, p, v, r.v);
      StandsMore(v, r.v, l.Objects(), S + l.Objects());
    } else {
      StandsMore(v, r.v, S, S + l.Objects());
    }
  }

  lemma DataStands(root: Val, tree: Fields, l: Layout, v: Val, p: Path, sh: Shared, S: set<object>)
    requires Tracks(root, Obj(tree), l) && DataFollows(tree, l, v, p, sh, S)
    ensures Stands(v, Payload(Now(sh)), S + l.Objects())
  {
    match sh
    case Whole(r) =>
      FollowsStands(root, tree, l, v, p, r, S);
    case Entries(rs) =>
      forall k | k in rs
        ensures Stands(v.m.fields[k], rs[k].v, S + l.Objects())
      {
        FollowsStands(root, tree, l, v.m.fields[k], p + [k], rs[k], S);
      }
    case Nothing =>
  }

  // ----- when the write has just been done -----

  lemma PutFollows(root: Val, tree: Fields, l: Layout, held: Content, p: Path, j: Json, part: Layout, root': Val,
                   l': Layout, v: Val)
    requires Stepped(root, tree, l, held, Op(p, Put(j)), part, root', l') && Tracks(v, j, part)
    ensures DataFollows(Apply(Op(p, Put(j)), tree), l', v, p, Shares(Put(j), p, []), part.inSlices)
  {
    assert SteppedTo(root, tree, l, held, Op(p, Put(j)), part, root', l');
    var op := Op(p, Put(j));
    TracksRoot(v, j, part);
    if j.Obj? {
      SubtreeProjection(op, tree, p);
      ProjectCases(Put(j), p, p, Fetch(tree, p));
      assert PlacedAs(l, l', op, part);
      assert p + [] == p && p[|p|..] == [];
      assert Taken(l', op, part, p + []);
    }
  }

  lemma EntryFollows(root: Val, tree: Fields, l: Layout, held: Content, p: Path, js: Fields, part: Layout, root': Val,
                     l': Layout, m: MapNode, k: string)
    requires Stepped(root, tree, l, held, Op(p, Patch(js)), part, root', l') && Tracks(MapRef(m), Obj(js), part)
    requires k in js
    ensures k in m.fields
    ensures Follows(Apply(Op(p, Patch(js)), tree), l', m.fields[k], p + [k], Ref(js[k], true), {m} + part.inSlices)
  {
    assert SteppedTo(root, tree, l, held, Op(p, Patch(js)), part, root', l');
    var op := Op(p, Patch(js));
    RootMap(MapRef(m), Obj(js), part);
    BelowTracks(MapRef(m), Obj(js), part, k);
    TracksRoot(m.fields[k], js[k], Below(part, k));
    if js[k].Obj? {
      SubtreeProjection(op, tree, p + [k]);
      ProjectCases(Patch(js), p, p + [k], Fetch(tree, p + [k]));
      LookupNothing([]);
      assert PlacedAs(l, l', op, part);
      assert (p + [k])[|p|..] == [k] && [k] + [] == [k];
      assert Taken(l', op, part, p + [k]);
    } else {
      StandsMore(m.fields[k], js[k], part.inSlices, {m} + part.inSlices);
    }
  }

  lemma PatchFollows(root: Val, tree: Fields, l: Layout, held: Content, p: Path, js: Fields, part: Layout, root': Val,
                     l': Layout, m: MapNode)
    requires Stepped(root, tree, l, held, Op(p, Patch(js)), part, root', l') && Tracks(MapRef(m), Obj(js), part)
    ensures DataFollows(Apply(Op(p, Patch(js)), tree), l', MapRef(m), p, Shares(Patch(js), p, []),
                        {m} + part.inSlices)
  {
    RootMap(MapRef(m), Obj(js), part);
    RootKeys(MapRef(m), Obj(js), part);
    forall k | k in js
      ensures k in m.fields
      ensures Follows(Apply(Op(p, Patch(js)), tree), l', m.fields[k], p + [k], Ref(js[k], true), {m} + part.inSlices)
    {
      EntryFollows(root, tree, l, held, p, js, part, root', l', m, k);
    }
  }

  /** `DataFollows`, as one fact. */
  ghost predicate Followed(tree: Fields, l: Layout, v: Val, p: Path, sh: Shared, S: set<object>)
    reads S
  {
    forall now | now == sh :: DataFollows(tree, l, v, p, now, S)
  }

  // ----- what has left the tree is not written again -----

  ghost predicate OffTree(S: set<object>, l: Layout) {
    forall m | m in l.Maps() :: m as object !in S
  }

  /** The maps that are in the tree after a call and were neither in it nor handed over are none of these. */
  ghost predicate NewOff(S: set<object>, l: Layout, part: Layout, l': Layout) {
    forall m | m in l'.Maps() - l.Maps() - part.Maps() :: m as object !in S
  }

  /** What the operation takes out of the tree is not in it afterwards. */
  lemma LeftIsOff(root: Val, tree: Fields, l: Layout, held: Content, op: Op, part: Layout, l': Layout)
    requires Fits(root, Obj(tree), l, held) && Placed(l, l', op, part) && Apart(l, part)
    requires NewOff(l.inSlices, l, part, l')
    ensures OffTree(LeftBy(l, op), l')
  {
    assert PlacedAs(l, l', op, part);
    forall r | r in l'.at
      ensures l'.at[r] as object !in LeftBy(l, op)
    {
      MapsAt(l', r);
      if InPlace(l, l', op, r) {
        KeptIsNotLeft(l, op, r);
      } else if Taken(l', op, part, r) {
        MapsAt(part, r[|op.path|..]);
        LeftWasIn(l, op);
      } else {
        LeftWasIn(l, op);
        assert l'.at[r] in l'.Maps() - l.Maps() - part.Maps();
      }
    }
  }

  lemma LeftWasIn(l: Layout, op: Op)
    ensures forall m: MapNode | m as object in LeftBy(l, op) :: m in l.Maps() || m as object in l.inSlices
  {
    forall q | q in l.at
      ensures l.at[q] in l.Maps()
    {
      MapsAt(l, q);
    }
  }

  lemma KeptIsNotLeft(l: Layout, op: Op, r: Path)
    requires Unshared(l) && r in l.at && !Cleared(op, r)
    ensures l.at[r] as object !in LeftBy(l, op)
  {
    assert OnePlace(l, r, r);
    forall q | q in l.at && Cleared(op, q)
      ensures l.at[q] != l.at[r]
    {
      assert OnePlace(l, q, r);
    }
  }

  lemma StaysOff(S: set<object>, l: Layout, part: Layout, l': Layout)
    requires OffTree(S, l) && OffTree(S, part) && NewOff(S, l, part, l')
    ensures OffTree(S, l')
  {
    forall m | m in l'.Maps()
      ensures m as object !in S
    {
      assert m in l.Maps() || m in part.Maps() || m in l'.Maps() - l.Maps() - part.Maps();
    }
  }

  /** The map that is handed to Update is not put into the tree, only what it refers to. */
  lemma PatchIsOff(m: MapNode, js: Fields, l: Layout, p: Path, part: Layout, l': Layout)
    requires Tracks(MapRef(m), Obj(js), part) && Placed(l, l', Op(p, Patch(js)), part) && Apart(l, part)
    ensures m !in l'.Maps()
  {
    var op := Op(p, Patch(js));
    RootMap(MapRef(m), Obj(js), part);
    MapsAt(part, []);
    OnePlaceEach(MapRef(m), Obj(js), part, []);
    assert PlacedAs(l, l', op, part);
    forall r | r in l'.at
      ensures l'.at[r] != m
    {
      if InPlace(l, l', op, r) {
        MapsAt(l, r);
      } else if Taken(l', op, part, r) {
        assert r[|p|..] != [];
      }
    }
  }

  // ----- one call -----

  /** What a call may write besides the maps. */
  ghost function Fixed(db: DB, gen: PushId.Generator): set<object>
    reads db, db.hub
  {
    {db, gen, gen.lastRand} + db.HubObjects()
  }

  ghost function Reach(db: DB, gen: PushId.Generator): set<object>
    reads db, db.hub
  {
    Fixed(db, gen) + set m: MapNode | m in db.layout.Maps() :: m as object
  }

  /** `Ready`, as one fact. */
  ghost predicate Steady(db: DB, gen: PushId.Generator, objs: set<object>)
    reads db, db.layout.Maps(), db.layout.inSlices, db.HubObjects(), gen, gen.lastRand
  {
    forall all | all == objs :: Ready(db, gen, all)
  }

  lemma LeftObjects(l: Layout, op: Op)
    ensures LeftBy(l, op) <= l.Objects()
  {
    forall r | r in l.at
      ensures l.at[r] as object in l.Objects()
    {
      MapsAt(l, r);
    }
  }

  /** What the operation takes out of the tree is apart from what stays writable. */
  lemma LeftApart(db: DB, gen: PushId.Generator, kept: set<object>, op: Op)
    requires Steady(db, gen, kept)
    ensures LeftBy(db.layout, op) !! Fixed(db, gen) + kept
  {
    assert Ready(db, gen, kept);
    LeftWasIn(db.layout, op);
    LeftObjects(db.layout, op);
    assert forall m | m in db.layout.Maps() :: m as object != db;
  }

  lemma SlicesBeyond(db: DB, gen: PushId.Generator)
    requires db.Valid() && Aside(gen, db.Footprint())
    ensures db.layout.inSlices !! Reach(db, gen)
  {
    var l := db.layout;
    assert Fits(MapRef(db.root), Obj(db.tree), l, ContentOf(l));
    forall r | r in l.at
      ensures l.at[r] !in l.inSlices
    {
      assert OnePlace(l, r, r);
    }
  }

  /** A call, as a step from one tree to the next. */
  method Step(db: DB, gen: PushId.Generator, c: Mutation, ghost kept: set<object>)
    returns (key: string)
    requires Steady(db, gen, kept) && Steady(db, gen, Handed(c)) && Intact(c) && kept !! Handed(c) && gen.Valid()
    modifies Reach(db, gen)
    ensures Steady(db, gen, kept) && unchanged(kept)
    ensures fresh(db.layout.Maps() - old(db.layout.Maps()) - PartOf(c).Maps())
    ensures db.HubObjects() == old(db.HubObjects()) && gen.Valid()
    ensures gen.Model() == Ticked(c, old(gen.Model())) && key == KeyOf(c, old(gen.Model()))
    ensures db.tree == Apply(Effect(c, key), old(db.tree))
    ensures Stepped(old(MapRef(db.root)), old(db.tree), old(db.layout), old(ContentOf(db.layout)), Effect(c, key),
                    PartOf(c), MapRef(db.root), db.layout)
  {
    assert Ready(db, gen, kept) && Ready(db, gen, Handed(c));
    SlicesBeyond(db, gen);
    ghost var root, tree, l, held := MapRef(db.root), db.tree, db.layout, ContentOf(db.layout);
    assert Fits(root, Obj(tree), l, held);
    assert Stood(root, tree, l, held);
    key := Mutate(db, gen, c, kept);
    assert unchanged(l.inSlices);
  }

  lemma SteppedPlaced(root: Val, tree: Fields, l: Layout, held: Content, op: Op, part: Layout, root': Val, l': Layout)
    requires Stepped(root, tree, l, held, op, part, root', l')
    ensures Fits(root, Obj(tree), l, held) && Placed(l, l', op, part)
  {
    assert SteppedTo(root, tree, l, held, op, part, root', l');
    assert Fits(root, Obj(tree), l, held);
  }

  lemma HandedSeparate(db: DB, gen: PushId.Generator, c: Mutation)
    requires Steady(db, gen, Handed(c))
    ensures Apart(db.layout, PartOf(c)) && Handed(c) !! Reach(db, gen)
  {
    assert Ready(db, gen, Handed(c));
    IsolatedSeparate(db, PartOf(c));
    assert forall m | m in db.layout.Maps() :: m as object in db.Footprint();
  }

  /** One call: the data goes on following the account. */
  method FollowCall(db: DB, gen: PushId.Generator, c: Mutation, ghost v: Val, ghost p: Path, ghost sh: Shared,
                    ghost S: set<object>, ghost kept: set<object>)
    returns (key: string, ghost S': set<object>)
    requires Steady(db, gen, kept) && Steady(db, gen, Handed(c)) && Intact(c) && kept !! Handed(c)
    requires Followed(db.tree, db.layout, v, p, sh, S) && S !! Reach(db, gen) && S !! Handed(c) + kept && gen.Valid()
    modifies Reach(db, gen)
    ensures Steady(db, gen, kept) && unchanged(kept)
    ensures fresh(db.layout.Maps() - old(db.layout.Maps()) - PartOf(c).Maps())
    ensures db.HubObjects() == old(db.HubObjects()) && gen.Valid()
    ensures gen.Model() == Ticked(c, old(gen.Model())) && key == KeyOf(c, old(gen.Model()))
    ensures db.tree == Apply(Effect(c, key), old(db.tree))
    ensures Followed(db.tree, db.layout, v, p, Evolve(sh, p, Effect(c, key)), S')
    ensures S' !! Reach(db, gen) && S' !! kept
  {
    assert DataFollows(db.tree, db.layout, v, p, sh, S);
    ghost var root, tree, l, held := MapRef(db.root), db.tree, db.layout, ContentOf(db.layout);
    forall op ensures LeftBy(l, op) !! Fixed(db, gen) + kept { LeftApart(db, gen, kept, op); }
    HandedSeparate(db, gen, c);
    key := Step(db, gen, c, kept);
    ghost var op := Effect(c, key);
    S' := S + LeftBy(l, op);
    StepDataFollows(root, tree, l, held, op, PartOf(c), MapRef(db.root), db.layout, v, p, sh, S);
    assert NewOff(S + l.inSlices, l, PartOf(c), db.layout);
    OffAfter(root, tree, l, held, op, PartOf(c), MapRef(db.root), db, gen, S);
  }

  lemma OffAfter(root: Val, tree: Fields, l: Layout, held: Content, op: Op, part: Layout, root': Val, db: DB,
                 gen: PushId.Generator, S: set<object>)
    requires Stepped(root, tree, l, held, op, part, root', db.layout) && Apart(l, part)
    requires OffTree(S, l) && OffTree(S, part) && NewOff(S + l.inSlices, l, part, db.layout)
    requires S + LeftBy(l, op) !! Fixed(db, gen)
    ensures S + LeftBy(l, op) !! Reach(db, gen)
  {
    SteppedPlaced(root, tree, l, held, op, part, root', db.layout);
    LeftIsOff(root, tree, l, held, op, part, db.layout);
    StaysOff(S, l, part, db.layout);
  }

  // ----- the call that hands the data over -----

  /** The data of the event that the call sends. */
  ghost function ValueOf(c: Mutation): Val {
    match c
    case SetCall(_, v, _, _) => v
    case UpdateCall(_, m, _, _) => MapRef(m)
    case DeleteCall(_) => Leaf(Null)
    case PushCall(_, v, _, _, _, _) => v
  }

  /** What is handed over and never written: what lies below slices, and the map given to Update. */
  ghost function Own(c: Mutation): set<object> {
    PartOf(c).inSlices + if c.UpdateCall? then {c.m as object} else {}
  }

  /** `Intact`, as one fact. */
  ghost predicate StillIntact(c: Mutation)
    reads Handed(c)
  {
    forall now | now == c :: Intact(now)
  }

  lemma OwnHanded(c: Mutation)
    requires Intact(c)
    ensures Own(c) <= Handed(c)
  {
    if c.UpdateCall? {
      RootMap(MapRef(c.m), Obj(c.js), c.part);
      MapsAt(c.part, []);
    }
  }

  lemma FirstFollows(root: Val, tree: Fields, l: Layout, held: Content, c: Mutation, key: string, root': Val,
                     l': Layout)
    requires Stepped(root, tree, l, held, Effect(c, key), PartOf(c), root', l') && StillIntact(c)
    ensures var op := Effect(c, key);
      DataFollows(Apply(op, tree), l', ValueOf(c), op.path, Shares(op.edit, op.path, []), Own(c))
  {
    assert Intact(c);
    var p := Effect(c, key).path;
    match c
    case SetCall(_, v, j, part) =>
      PutFollows(root, tree, l, held, p, j, part, root', l', v);
      assert Own(c) == part.inSlices;
    case UpdateCall(_, m, js, part) =>
      PatchFollows(root, tree, l, held, p, js, part, root', l', m);
      assert Own(c) == {m} + part.inSlices;
    case DeleteCall(_) =>
    case PushCall(_, v, _, _, j, part) =>
      PutFollows(root, tree, l, held, p, j, part, root', l', v);
      assert Own(c) == part.inSlices;
  }

  lemma FirstOff(root: Val, tree: Fields, l: Layout, held: Content, c: Mutation, key: string, root': Val, l': Layout)
    requires Stepped(root, tree, l, held, Effect(c, key), PartOf(c), root', l') && StillIntact(c)
    requires Apart(l, PartOf(c)) && NewOff(PartOf(c).inSlices, l, PartOf(c), l')
    ensures OffTree(Own(c), l')
  {
    assert Intact(c);
    SteppedPlaced(root, tree, l, held, Effect(c, key), PartOf(c), root', l');
    HandedOff(c);
    StaysOff(PartOf(c).inSlices, l, PartOf(c), l');
    if c.UpdateCall? {
      PatchIsOff(c.m, c.js, l, SplitPath(c.path), c.part, l');
    }
  }

  lemma HandedOff(c: Mutation)
    requires Intact(c)
    ensures OffTree(PartOf(c).inSlices, PartOf(c))
  {
    var part := PartOf(c);
    if !c.DeleteCall? {
      TracksRoot(ValueOf(c), if c.UpdateCall? then Obj(c.js) else c.j, part);
      forall r | r in part.at
        ensures part.at[r] !in part.inSlices
      {
        assert OnePlace(part, r, r);
      }
    }
  }

  /** The data that a call hands over follows the account of its write. */
  method FirstCall(db: DB, gen: PushId.Generator, c: Mutation, ghost kept: set<object>)
    returns (key: string)
    requires Steady(db, gen, kept) && Steady(db, gen, Handed(c)) && Intact(c) && kept !! Handed(c) && gen.Valid()
    modifies Reach(db, gen)
    ensures Steady(db, gen, kept) && unchanged(kept)
    ensures fresh(db.layout.Maps() - old(db.layout.Maps()) - PartOf(c).Maps())
    ensures db.HubObjects() == old(db.HubObjects()) && gen.Valid()
    ensures gen.Model() == Ticked(c, old(gen.Model())) && key == KeyOf(c, old(gen.Model()))
    ensures db.tree == Apply(Effect(c, key), old(db.tree))
    ensures var op := Effect(c, key);
      Followed(db.tree, db.layout, ValueOf(c), op.path, Shares(op.edit, op.path, []), Own(c))
    ensures Own(c) !! Reach(db, gen) && Own(c) !! kept
  {
    ghost var root, tree, l, held := MapRef(db.root), db.tree, db.layout, ContentOf(db.layout);
    HandedSeparate(db, gen, c);
    OwnHanded(c);
    assert StillIntact(c);
    key := Step(db, gen, c, kept);
    assert unchanged(Handed(c));
    FirstFollows(root, tree, l, held, c, key, MapRef(db.root), db.layout);
    FirstOff(root, tree, l, held, c, key, MapRef(db.root), db.layout);
  }

  // ----- any series of calls -----

  lemma ReadyParts(db: DB, gen: PushId.Generator, calls: seq<Mutation>)
    requires Steady(db, gen, AllHanded(calls)) && calls != []
    ensures gen.Valid() && Steady(db, gen, AllHanded(calls[1..])) && Steady(db, gen, Handed(calls[0]))
  {
    assert Ready(db, gen, AllHanded(calls));
    assert Ready(db, gen, AllHanded(calls[1..])) && Ready(db, gen, Handed(calls[0]));
  }

  lemma EvolvedOnce(e: Edit, p: Path, done: seq<Op>, op: Op)
    ensures Evolve(Shares(e, p, done), p, op) == Shares(e, p, done + [op])
  {
    assert (done + [op])[..|done|] == done;
  }

  lemma EffectsFirst(calls: seq<Mutation>, key: string, keys: seq<string>, done: seq<Op>, tree: Fields)
    requires calls != [] && |keys| == |calls| - 1
    ensures var op, ops := Effect(calls[0], key), Effects(calls[1..], keys);
      && done + Effects(calls, [key] + keys) == done + [op] + ops
      && Run(Effects(calls, [key] + keys), tree) == Run(ops, Apply(op, tree))
  {
    var op, ops := Effect(calls[0], key), Effects(calls[1..], keys);
    RunFirst(op, ops, tree);
    assert ([key] + keys)[1..] == keys;
    assert done + [op] + ops == done + ([op] + ops);
  }

  /** After any series of calls, data that has followed the account of the operations `done` follows that of all
      the operations. */
  method FollowSeries(db: DB, gen: PushId.Generator, calls: seq<Mutation>, ghost v: Val, ghost p: Path, ghost e: Edit,
                      ghost done: seq<Op>, ghost S: set<object>)
    returns (keys: seq<string>, ghost S': set<object>)
    requires Steady(db, gen, AllHanded(calls)) && gen.Valid() && AllIntact(calls)
    requires Followed(db.tree, db.layout, v, p, Shares(e, p, done), S)
    requires S !! Reach(db, gen) && S !! AllHanded(calls)
    modifies Reach(db, gen), AllHanded(calls)
    ensures Steady(db, gen, {})
    ensures keys == KeysOf(calls, old(gen.Model())) && db.tree == Run(Effects(calls, keys), old(db.tree))
    ensures Followed(db.tree, db.layout, v, p, Shares(e, p, done + Effects(calls, keys)), S')
    decreases |calls|
  {
    keys, S' := [], S;
    if calls == [] {
      assert done + [] == done;
      assert Ready(db, gen, AllHanded(calls));
    } else {
      var c, rest := calls[0], calls[1..];
      ReadyParts(db, gen, calls);
      var key;
      key, S' := FollowCall(db, gen, c, v, p, Shares(e, p, done), S, AllHanded(rest));
      ghost var op := Effect(c, key);
      EvolvedOnce(e, p, done, op);
      keys, S' := FollowSeries(db, gen, rest, v, p, e, done + [op], S');
      EffectsFirst(calls, key, keys, done, old(db.tree));
      keys := [key] + keys;
    }
  }

  lemma ReadLate(db: DB, v: Val, op: Op, later: seq<Op>, S: set<object>)
    requires db.Sound()
    requires Followed(db.tree, db.layout, v, op.path, Shares(op.edit, op.path, later), S)
    ensures Stands(v, Payload(ReadAfter(op, later).edit), S + db.layout.Objects())
  {
    var sh := Shares(op.edit, op.path, later);
    assert DataFollows(db.tree, db.layout, v, op.path, sh, S);
    DataStands(MapRef(db.root), db.tree, db.layout, v, op.path, sh, S);
  }

  /** The data of the event that a call sends, a reference, stands after any series of later calls for what the event is
      read as then. */
  method HandedOver(db: DB, gen: PushId.Generator, calls: seq<Mutation>)
    returns (keys: seq<string>, ghost S: set<object>)
    requires Ready(db, gen, AllHanded(calls)) && AllIntact(calls) && calls != []
    modifies Reach(db, gen), AllHanded(calls)
    ensures Ready(db, gen, {})
    ensures keys == KeysOf(calls, old(gen.Model())) && db.tree == Run(Effects(calls, keys), old(db.tree))
    ensures var ops := Effects(calls, keys);
      Stands(ValueOf(calls[0]), Payload(ReadAfter(ops[0], ops[1..]).edit), S)
  {
    ReadyParts(db, gen, calls);
    var c, rest := calls[0], calls[1..];
    var key := FirstCall(db, gen, c, AllHanded(rest));
    ghost var op := Effect(c, key);
    keys, S := FollowSeries(db, gen, rest, ValueOf(c), op.path, op.edit, [], Own(c));
    EffectsFirst(calls, key, keys, [], old(db.tree));
    assert [] + Effects(rest, keys) == Effects(rest, keys);
    assert Ready(db, gen, {});
    ReadLate(db, ValueOf(c), op, Effects(rest, keys), S);
    S := S + db.layout.Objects();
    keys := [key] + keys;
  }
}
