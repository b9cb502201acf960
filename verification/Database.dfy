/** The database: in-place walks over the nested maps, each write published through the hub. */
module Database {
  import opened Options
  import opened Paths
  import opened JsonTree
  import opened TreeLaws
  import opened Heap
  import opened HubModel
  import Hub
  import PushId

  // ----- edits step by step -----

  /** Turning what stands at `p` and above it into objects. */
  const ENSURE: Edit := Patch(map[])

  /** An edit below an ensured path, or another patch at it, makes the ensuring unnecessary. */
  lemma {:induction false} EnsureAbsorbed(f: Edit, p: Path, r: Path, v: Option<Json>)
    requires !f.Delete? && (r == [] ==> f.Patch?)
    ensures ApplyAt(f, p + r, ApplyAt(ENSURE, p, v)) == ApplyAt(f, p + r, v)
    decreases |p|
  {
    if p == [] {
      assert p + r == r && FieldsOf(v) + map[] == FieldsOf(v);
    } else {
      assert (p + r)[0] == p[0] && (p + r)[1..] == p[1..] + r;
      EnsureAbsorbed(f, p[1..], r, Child(v, p[0]));
      ChildAfter(ENSURE, p, v, p[0]);
      WithChildTwice(FieldsOf(v), p[0], ApplyAt(ENSURE, p[1..], Child(v, p[0])),
                     ApplyAt(f, p[1..] + r, Child(v, p[0])));
    }
  }

  /** Ensuring a path that holds an object changes nothing. */
  lemma {:induction false} EnsureIdle(p: Path, v: Option<Json>)
    requires IsObject(Lookup(v, p))
    ensures ApplyAt(ENSURE, p, v) == v
    decreases |p|
  {
    if p == [] {
      assert FieldsOf(v) + map[] == FieldsOf(v);
    } else {
      if !IsObject(v) {
        LookupNothing(p[1..]);
      }
      EnsureIdle(p[1..], Child(v, p[0]));
      assert WithChild(FieldsOf(v), p[0], Child(v, p[0])) == FieldsOf(v);
    }
  }

  /** Ensuring a path that holds no object puts an empty one there. */
  lemma {:induction false} EnsureCreates(p: Path, v: Option<Json>)
    requires !IsObject(Lookup(v, p))
    ensures ApplyAt(ENSURE, p, v) == ApplyAt(Put(Obj(map[])), p, v)
    decreases |p|
  {
    if p == [] {
      var none: Fields := map[];
      assert none + map[] == none;
    } else {
      EnsureCreates(p[1..], Child(v, p[0]));
    }
  }

  /** Patching one more field. */
  lemma {:induction false} PatchExtend(p: Path, fs: Fields, k: string, j: Json, v: Option<Json>)
    ensures ApplyAt(Put(j), p + [k], ApplyAt(Patch(fs), p, v)) == ApplyAt(Patch(fs[k := j]), p, v)
    decreases |p|
  {
    if p == [] {
      assert (p + [k])[1..] == [] && p + [k] == [k];
      assert FieldsOf(v) + fs[k := j] == (FieldsOf(v) + fs)[k := j];
    } else {
      assert (p + [k])[0] == p[0] && (p + [k])[1..] == p[1..] + [k];
      PatchExtend(p[1..], fs, k, j, Child(v, p[0]));
      ChildAfter(Patch(fs), p, v, p[0]);
      WithChildTwice(FieldsOf(v), p[0], ApplyAt(Patch(fs), p[1..], Child(v, p[0])),
                     ApplyAt(Patch(fs[k := j]), p[1..], Child(v, p[0])));
    }
  }

  /** Deleting below a path that holds no object changes nothing. */
  lemma {:induction false} DeleteBlocked(p: Path, r: Path, v: Option<Json>)
    requires !IsObject(Lookup(v, p)) && r != []
    ensures ApplyAt(Delete, p + r, v) == v
    decreases |p|
  {
    if p == [] {
      assert p + r == r;
    } else {
      assert (p + r)[0] == p[0] && (p + r)[1..] == p[1..] + r;
      DeleteBlocked(p[1..], r, Child(v, p[0]));
      if IsObject(v) {
        assert WithChild(FieldsOf(v), p[0], Child(v, p[0])) == FieldsOf(v);
      }
    }
  }

  // ----- the walks -----

  /** There are no maps at or below a path that holds no object. */
  lemma NoneBelow(v: Val, j: Json, l: Layout, q: Path)
    requires Tracks(v, j, l) && !IsObject(Lookup(Some(j), q))
    ensures forall r | r in l.at :: !(q <= r)
  {
    forall r | r in l.at
      ensures !(q <= r)
    {
      TracksMap(v, j, l, r);
      AncestorsAreObjects(j, r);
    }
  }

  lemma NoneBeyond(v: Val, j: Json, l: Layout, q: Path, segs: Path)
    requires Tracks(v, j, l) && !IsObject(Lookup(Some(j), q)) && q <= segs
    ensures forall r | r in l.at :: !(segs <= r)
  {
    NoneBelow(v, j, l, q);
    forall r | r in l.at
      ensures !(segs <= r)
    {
      PrefixesFollow(q, segs, r);
    }
  }

  lemma PrefixesFollow(p: Path, q: Path, r: Path)
    requires p <= q
    ensures q <= r ==> p <= r
  {
    if q <= r {
      assert p == r[..|p|];
    }
  }

  /** One step of the walk: to the map under `seg`, or to an empty map put there. */
  method Descend(ghost root: MapNode, ghost j: Json, ghost l: Layout, ghost p: Path, cur: MapNode, seg: string)
    returns (next: MapNode, ghost j': Json, ghost l': Layout)
    requires Tracks(MapRef(root), j, l) && p in l.at && cur == l.at[p]
    modifies cur
    ensures Tracks(MapRef(root), j', l') && Some(j') == ApplyAt(ENSURE, p + [seg], Some(j))
    ensures p + [seg] in l'.at && next == l'.at[p + [seg]]
    ensures l'.inSlices == l.inSlices && fresh(l'.Maps() - l.Maps())
    ensures Widened(l, l')
  {
    j', l' := j, l;
    ChildMap(MapRef(root), j, l, p, seg);
    if seg in cur.fields && cur.fields[seg].MapRef? {
      next := cur.fields[seg].m;
      EnsureIdle(p + [seg], Some(j));
    } else {
      next := new MapNode();
      TracksRoot(MapRef(root), j, l);
      EmptyTracks(next);
      EnsureCreates(p + [seg], Some(j));
      NoneBelow(MapRef(root), j, l, p + [seg]);
      j' := PutIn(j, p + [seg], Obj(map[]));
      l' := StoreEntry(MapRef(root), j, l, p, cur, seg, MapRef(next), Obj(map[]), Single(next));
    }
  }

  /** Walks to the map that holds the last segment, putting an empty map wherever none stands on the way. */
  method EnsureParent(root: MapNode, segs: Path, ghost j: Json, ghost l: Layout)
    returns (parent: MapNode, ghost j': Json, ghost l': Layout)
    requires Tracks(MapRef(root), j, l) && segs != []
    modifies l.Maps()
    ensures Tracks(MapRef(root), j', l') && Some(j') == ApplyAt(ENSURE, segs[..|segs| - 1], Some(j))
    ensures segs[..|segs| - 1] in l'.at && parent == l'.at[segs[..|segs| - 1]]
    ensures l'.inSlices == l.inSlices && fresh(l'.Maps() - l.Maps())
    ensures Widened(l, l') && ChangedAbove(l, old(ContentOf(l)), segs)
  {
    TracksRoot(MapRef(root), j, l);
    EnsureIdle([], Some(j));
    RootMap(MapRef(root), j, l);
    parent, j', l' := root, j, l;
    var i := 0;
    while i < |segs| - 1
      invariant i <= |segs| - 1
      invariant Tracks(MapRef(root), j', l') && Some(j') == ApplyAt(ENSURE, segs[..i], Some(j))
      invariant segs[..i] in l'.at && parent == l'.at[segs[..i]]
      invariant l'.inSlices == l.inSlices && fresh(l'.Maps() - l.Maps())
      invariant Widened(l, l') && ChangedAbove(l, old(ContentOf(l)), segs)
    {
      OnePlaceEach(MapRef(root), j', l', segs[..i]);
      assert segs[..i + 1] == segs[..i] + [segs[i]];
      EnsureAbsorbed(ENSURE, segs[..i], [segs[i]], Some(j));
      parent, j', l' := Descend(root, j', l', segs[..i], parent, segs[i]);
      i := i + 1;
    }
  }

  /** New maps are none of those that are handed over. */
  lemma NewApart(l: Layout, l': Layout, part: Layout)
    requires Apart(l, part) && l'.inSlices == l.inSlices
    requires forall m | m in l'.Maps() - l.Maps() :: m !in part.Maps() && m !in part.inSlices
    ensures Apart(l', part)
  {
    assert forall m | m in l'.Maps() :: m in l.Maps() || m in l'.Maps() - l.Maps();
  }

  /** Puts `value`, which the caller hands over, at the end of the walk. */
  method SetAt(root: MapNode, segs: Path, value: Val, ghost j: Json, ghost l: Layout, ghost jv: Json,
               ghost part: Layout)
    returns (ghost j': Json, ghost l': Layout)
    requires Tracks(MapRef(root), j, l) && segs != []
    requires Tracks(value, jv, part) && Apart(l, part)
    modifies l.Maps()
    ensures Tracks(MapRef(root), j', l') && Some(j') == ApplyAt(Put(jv), segs, Some(j))
    ensures l'.inSlices == l.inSlices + part.inSlices && fresh(l'.Maps() - l.Maps() - part.Maps())
    ensures Placed(l, l', Op(segs, Put(jv)), part)
    ensures ChangedBy(l, old(ContentOf(l)), Op(segs, Put(jv)))
  {
    ghost var p, last := segs[..|segs| - 1], segs[|segs| - 1];
    assert p + [last] == segs;
    EnsureAbsorbed(Put(jv), p, [last], Some(j));
    var parent;
    parent, j', l' := EnsureParent(root, segs, j, l);
    NewApart(l, l', part);
    TracksRoot(MapRef(root), j', l');
    ghost var l1 := l';
    j', l' := PutLast(root, segs, parent, value, j', l', jv, part);
    PlacedSince(l, l1, l', Op(segs, Put(jv)), part);
  }

  /** The assignment at the end of the walk. */
  method PutLast(ghost root: MapNode, segs: Path, parent: MapNode, value: Val, ghost j: Json, ghost l: Layout,
                 ghost jv: Json, ghost part: Layout)
    returns (ghost j': Json, ghost l': Layout)
    requires Tracks(MapRef(root), j, l) && segs != []
    requires segs[..|segs| - 1] in l.at && parent == l.at[segs[..|segs| - 1]]
    requires Tracks(value, jv, part) && Apart(l, part)
    modifies parent
    ensures Tracks(MapRef(root), j', l') && Some(j') == ApplyAt(Put(jv), segs, Some(j))
    ensures l'.inSlices == l.inSlices + part.inSlices && l'.Maps() <= l.Maps() + part.Maps()
    ensures Placed(l, l', Op(segs, Put(jv)), part)
    ensures ChangedAbove(l, old(ContentOf(l)), segs)
  {
    ghost var p, last := segs[..|segs| - 1], segs[|segs| - 1];
    assert p + [last] == segs;
    TracksRoot(MapRef(root), j, l);
    OnePlaceEach(MapRef(root), j, l, p);
    GraftPlaced(l, segs, Put(jv), part);
    l' := StoreEntry(MapRef(root), j, l, p, parent, segs[|segs| - 1], value, jv, part);
    j' := PutIn(j, p + [last], jv);
  }

  /** The write of Set: at the root a map replaces the old root and anything else empties it. */
  method Replace(root: MapNode, segs: Path, value: Val, ghost j: Json, ghost l: Layout, ghost jv: Json,
                 ghost part: Layout)
    returns (root': MapNode, ghost j': Json, ghost l': Layout)
    requires Tracks(MapRef(root), j, l) && j.Obj?
    requires Tracks(value, jv, part) && Apart(l, part)
    modifies l.Maps()
    ensures Tracks(MapRef(root'), j', l') && j' == Obj(Apply(Op(segs, Put(jv)), j.fields))
    ensures l'.inSlices <= l.inSlices + part.inSlices && fresh(l'.Maps() - l.Maps() - part.Maps())
    ensures Placed(l, l', Op(segs, Put(jv)), part)
    ensures ChangedBy(l, old(ContentOf(l)), Op(segs, Put(jv)))
  {
    TracksRoot(value, jv, part);
    if |segs| > 0 {
      root' := root;
      j', l' := SetAt(root, segs, value, j, l, jv, part);
      TracksRoot(MapRef(root), j', l');
    } else if value.MapRef? {
      root', j', l' := value.m, jv, part;
      WholePlaced(l, Put(jv), part);
    } else {
      NoMaps(value, jv, part);
      root' := new MapNode();
      j', l' := Obj(map[]), Single(root');
      EmptyTracks(root');
    }
  }

  /** Walks to the object at the end, putting an empty map there if none stands there. */
  method EnsureTarget(root: MapNode, segs: Path, ghost j: Json, ghost l: Layout)
    returns (target: MapNode, ghost j': Json, ghost l': Layout)
    requires Tracks(MapRef(root), j, l)
    modifies l.Maps()
    ensures Tracks(MapRef(root), j', l') && Some(j') == ApplyAt(ENSURE, segs, Some(j))
    ensures segs in l'.at && target == l'.at[segs]
    ensures l'.inSlices == l.inSlices && fresh(l'.Maps() - l.Maps())
    ensures Widened(l, l') && ChangedAbove(l, old(ContentOf(l)), segs)
  {
    target, j', l' := root, j, l;
    TracksRoot(MapRef(root), j, l);
    EnsureIdle([], Some(j));
    RootMap(MapRef(root), j, l);
    if |segs| > 0 {
      ghost var p, last := segs[..|segs| - 1], segs[|segs| - 1];
      assert p + [last] == segs;
      EnsureAbsorbed(ENSURE, p, [last], Some(j));
      var parent;
      parent, j', l' := EnsureParent(root, segs, j, l);
      OnePlaceEach(MapRef(root), j', l', p);
      target, j', l' := Descend(root, j', l', p, parent, segs[|segs| - 1]);
    }
  }

  /** The parts below these keys of the layout `part` may still be taken over into `l`. */
  ghost predicate Takeable(l: Layout, part: Layout, keys: set<string>) {
    forall k | k in keys :: Apart(l, Below(part, k))
  }

  lemma AllTakeable(l: Layout, part: Layout, keys: set<string>)
    requires Apart(l, part) && Unshared(part)
    ensures Takeable(l, part, keys)
  {
    forall k | k in keys ensures Apart(l, Below(part, k)) { BelowApart(part, k, k); }
  }

  lemma StillTakeable(l: Layout, part: Layout, keys: set<string>, k: string, l': Layout)
    requires Takeable(l, part, keys) && k in keys && Unshared(part)
    requires l'.Maps() <= l.Maps() + Below(part, k).Maps() && l'.inSlices <= l.inSlices + part.inSlices
    ensures Takeable(l', part, keys - {k}) && l'.Maps() <= l.Maps() + part.Maps()
  {
    BelowApart(part, k, k);
    forall i | i in keys - {k} ensures Apart(l', Below(part, i)) { BelowStaysApart(l, part, k, i, l'); }
  }

  /** The state of the loop of Update: all entries of `value` but the ones under `rest` are copied. */
  ghost predicate Copying(root: MapNode, segs: Path, target: MapNode, value: MapNode, j0: Json, js: Fields,
                          part: Layout, rest: set<string>, j: Json, l: Layout)
    reads l.Maps(), l.inSlices, part.Maps(), part.inSlices
  {
    && rest <= js.Keys
    && Tracks(MapRef(value), Obj(js), part) && target !in part.Maps() && target !in part.inSlices
    && Tracks(MapRef(root), j, l) && segs in l.at && target == l.at[segs]
    && Some(j) == ApplyAt(Patch(js - rest), segs, Some(j0))
    && Takeable(l, part, rest)
  }

  lemma ClearedMore(segs: Path, fs: Fields, gs: Fields, k: string, r: Path)
    requires gs.Keys == fs.Keys + {k}
    ensures Cleared(Op(segs, Patch(gs)), r) <==> Cleared(Op(segs, Patch(fs)), r) || segs + [k] <= r
  {
    assert segs + [k] <= r <==> segs < r && r[|segs|] == k;
  }

  /** One more part of the value in its place. */
  lemma TakenMore(l: Layout, segs: Path, fs: Fields, gs: Fields, k: string, part: Layout, r: Path)
    requires gs.Keys == fs.Keys + {k}
    requires r in part.at && Cleared(Op(segs, Patch(gs)), segs + r)
    requires Cleared(Op(segs, Patch(fs)), segs + r) ==> Taken(l, Op(segs, Patch(fs)), part, segs + r)
    ensures Taken(Graft(l, segs + [k], Below(part, k)), Op(segs, Patch(gs)), part, segs + r)
  {
    assert (segs + r)[|segs|..] == r;
    ClearedMore(segs, fs, gs, k, segs + r);
    if segs + [k] <= segs + r {
      assert r == [k] + r[1..] && (segs + r)[|segs| + 1..] == r[1..];
    }
  }

  lemma KeptMore(l0: Layout, l: Layout, segs: Path, fs: Fields, gs: Fields, k: string, part: Layout, r: Path)
    requires gs.Keys == fs.Keys + {k}
    requires InPlace(l0, l, Op(segs, Patch(fs)), r) && !Cleared(Op(segs, Patch(gs)), r)
    ensures InPlace(l0, Graft(l, segs + [k], Below(part, k)), Op(segs, Patch(gs)), r)
  {
    ClearedMore(segs, fs, gs, k, r);
  }

  lemma FromMore(l0: Layout, l: Layout, segs: Path, fs: Fields, gs: Fields, k: string, part: Layout, r: Path)
    requires gs.Keys == fs.Keys + {k} && PlacedAs(l0, l, Op(segs, Patch(fs)), part)
    requires r in Graft(l, segs + [k], Below(part, k)).at
    ensures var l', op := Graft(l, segs + [k], Below(part, k)), Op(segs, Patch(gs));
      InPlace(l0, l', op, r) || Taken(l', op, part, r) || l'.at[r] !in l0.Maps() + part.Maps()
  {
    ClearedMore(segs, fs, gs, k, r);
    if segs + [k] <= r {
      assert [k] + r[|segs| + 1..] == r[|segs|..];
    } else {
      var op := Op(segs, Patch(fs));
      assert InPlace(l0, l, op, r) || Taken(l, op, part, r) || l.at[r] !in l0.Maps() + part.Maps();
    }
  }

  lemma NonePlaced(l: Layout, segs: Path, fs: Fields, part: Layout)
    requires fs == map[]
    ensures Placed(l, l, Op(segs, Patch(fs)), part)
  {
    assert PlacedAs(l, l, Op(segs, Patch(fs)), part);
  }

  lemma PlacedMore(l0: Layout, l: Layout, segs: Path, fs: Fields, gs: Fields, k: string, part: Layout)
    requires gs.Keys == fs.Keys + {k} && Placed(l0, l, Op(segs, Patch(fs)), part)
    ensures Placed(l0, Graft(l, segs + [k], Below(part, k)), Op(segs, Patch(gs)), part)
  {
    var l', op := Graft(l, segs + [k], Below(part, k)), Op(segs, Patch(gs));
    assert PlacedAs(l0, l, Op(segs, Patch(fs)), part);
    forall r | r in l'.at
      ensures InPlace(l0, l', op, r) || Taken(l', op, part, r) || l'.at[r] !in l0.Maps() + part.Maps()
    {
      FromMore(l0, l, segs, fs, gs, k, part, r);
    }
    forall r | r in l0.at && !Cleared(op, r)
      ensures InPlace(l0, l', op, r)
    {
      ClearedMore(segs, fs, gs, k, r);
      KeptMore(l0, l, segs, fs, gs, k, part, r);
    }
    forall r | r in part.at && Cleared(op, segs + r)
      ensures Taken(l', op, part, segs + r)
    {
      TakenMore(l, segs, fs, gs, k, part, r);
    }
  }

  lemma NothingLeft(js: Fields)
    ensures js - js.Keys == map[] && js - {} == js
  {
  }

  lemma OneEntryMore(js: Fields, rest: set<string>, k: string)
    requires k in rest && k in js
    ensures (js - rest)[k := js[k]] == js - (rest - {k})
    ensures (js - (rest - {k})).Keys == (js - rest).Keys + {k}
  {
  }

  /** `target[k] = value[k]` */
  method CopyEntry(ghost root: MapNode, ghost segs: Path, target: MapNode, value: MapNode, k: string,
                   ghost j0: Json, ghost j: Json, ghost l: Layout, ghost js: Fields,
                   ghost part: Layout, ghost rest: set<string>)
    returns (ghost j': Json, ghost l': Layout)
    requires Copying(root, segs, target, value, j0, js, part, rest, j, l) && k in rest && k in value.fields
    modifies target
    ensures Copying(root, segs, target, value, j0, js, part, rest - {k}, j', l')
    ensures l' == Graft(l, segs + [k], Below(part, k)) && l'.Maps() <= l.Maps() + part.Maps()
    ensures value.fields == old(value.fields)
  {
    RootMap(MapRef(value), Obj(js), part);
    TracksRoot(MapRef(value), Obj(js), part);
    BelowTracks(MapRef(value), Obj(js), part, k);
    l' := StoreEntry(MapRef(root), j, l, segs, target, k, value.fields[k], js[k], Below(part, k));
    j' := PutIn(j, segs + [k], js[k]);
    PatchExtend(segs, js - rest, k, js[k], Some(j0));
    OneEntryMore(js, rest, k);
    StillTakeable(l, part, rest, k, l');
    BelowApart(part, k, k);
  }

  /** The loop of Update: copies every entry of `value` into the object `target` at the end of the walk. */
  method CopyEntries(ghost root: MapNode, ghost segs: Path, target: MapNode, value: MapNode, ghost j0: Json,
                     ghost j: Json, ghost l: Layout, ghost js: Fields, ghost part: Layout)
    returns (ghost j': Json, ghost l': Layout)
    requires Copying(root, segs, target, value, j0, js, part, value.fields.Keys, j, l)
    modifies target
    ensures Copying(root, segs, target, value, j0, js, part, {}, j', l') && value.fields == old(value.fields)
    ensures Placed(l, l', Op(segs, Patch(js)), part)
    ensures l'.Maps() <= l.Maps() + part.Maps() && l'.inSlices <= l.inSlices + part.inSlices
  {
    j', l' := j, l;
    var rest := value.fields.Keys;
    RootMap(MapRef(value), Obj(js), part);
    RootKeys(MapRef(value), Obj(js), part);
    NothingLeft(js);
    NonePlaced(l, segs, js - rest, part);
    while rest != {}
      invariant rest <= value.fields.Keys
      invariant Copying(root, segs, target, value, j0, js, part, rest, j', l')
      invariant Placed(l, l', Op(segs, Patch(js - rest)), part)
      invariant value.fields == old(value.fields)
      invariant l'.Maps() <= l.Maps() + part.Maps() && l'.inSlices <= l.inSlices + part.inSlices
      decreases rest
    {
      var k :| k in rest;
      OneEntryMore(js, rest, k);
      PlacedMore(l, l', segs, js - rest, js - (rest - {k}), k, part);
      j', l' := CopyEntry(root, segs, target, value, k, j0, j', l', js, part, rest);
      rest := rest - {k};
    }
  }

  /** Copies every entry of `value`, which the caller hands over, into the object at the end of the walk. */
  method UpdateAt(root: MapNode, segs: Path, value: MapNode, ghost j: Json, ghost l: Layout,
                  ghost js: Fields, ghost part: Layout)
    returns (ghost j': Json, ghost l': Layout)
    requires Tracks(MapRef(root), j, l)
    requires Tracks(MapRef(value), Obj(js), part) && Apart(l, part)
    modifies l.Maps()
    ensures Tracks(MapRef(root), j', l') && Some(j') == ApplyAt(Patch(js), segs, Some(j))
    ensures l'.inSlices <= l.inSlices + part.inSlices && fresh(l'.Maps() - l.Maps() - part.Maps())
    ensures Placed(l, l', Op(segs, Patch(js)), part)
    ensures ChangedBy(l, old(ContentOf(l)), Op(segs, Patch(js)))
  {
    RootMap(MapRef(value), Obj(js), part);
    MapsAt(part, []);
    var target;
    target, j', l' := EnsureTarget(root, segs, j, l);
    MapsAt(l', segs);
    OnePlaceEach(MapRef(root), j', l', segs);
    NewApart(l, l', part);
    TracksRoot(MapRef(root), j', l');
    CopyingStarts(root, segs, target, value, j, js, part, j', l');
    ghost var l1 := l';
    j', l' := CopyEntries(root, segs, target, value, j, j', l', js, part);
    assert js - {} == js;
    PlacedSince(l, l1, l', Op(segs, Patch(js)), part);
  }

  lemma CopyingStarts(root: MapNode, segs: Path, target: MapNode, value: MapNode, j0: Json, js: Fields, part: Layout,
                      j: Json, l: Layout)
    requires Tracks(MapRef(value), Obj(js), part) && Apart(l, part)
    requires Tracks(MapRef(root), j, l) && segs in l.at && target == l.at[segs]
    requires Some(j) == ApplyAt(ENSURE, segs, Some(j0))
    ensures Copying(root, segs, target, value, j0, js, part, value.fields.Keys, j, l)
  {
    MapsAt(l, segs);
    RootKeys(MapRef(value), Obj(js), part);
    TracksRoot(MapRef(value), Obj(js), part);
    AllTakeable(l, part, js.Keys);
    RootMap(MapRef(value), Obj(js), part);
    NothingLeft(js);
  }

  /** Removes the entry at the end of the walk; a walk that meets no object on its way does nothing. */
  method DeleteAt(root: MapNode, segs: Path, ghost j: Json, ghost l: Layout)
    returns (ghost j': Json, ghost l': Layout)
    requires Tracks(MapRef(root), j, l) && j.Obj? && segs != []
    modifies l.Maps()
    ensures Tracks(MapRef(root), j', l') && Some(j') == ApplyAt(Delete, segs, Some(j))
    ensures l'.inSlices == l.inSlices && l'.Maps() <= l.Maps()
    ensures Placed(l, l', Op(segs, Delete), NO_LAYOUT)
    ensures ChangedBy(l, old(ContentOf(l)), Op(segs, Delete))
  {
    var cur, i := root, 0;
    RootMap(MapRef(root), j, l);
    while i < |segs| - 1
      invariant i <= |segs| - 1 && Tracks(MapRef(root), j, l)
      invariant segs[..i] in l.at && cur == l.at[segs[..i]]
      invariant forall r | r in l.at :: l.at[r].fields == old(l.at[r].fields)
    {
      ChildMap(MapRef(root), j, l, segs[..i], segs[i]);
      assert segs[..i + 1] == segs[..i] + [segs[i]];
      if !(segs[i] in cur.fields && cur.fields[segs[i]].MapRef?) {
        assert segs == segs[..i + 1] + segs[i + 1..];
        DeleteBlocked(segs[..i + 1], segs[i + 1..], Some(j));
        NoneBeyond(MapRef(root), j, l, segs[..i + 1], segs);
        return j, l;
      }
      cur := cur.fields[segs[i]].m;
      i := i + 1;
    }
    MapsAt(l, segs[..i]);
    j', l' := DropLast(root, segs, cur, j, l);
  }

  /** The removal at the end of the walk. */
  method DropLast(ghost root: MapNode, segs: Path, parent: MapNode, ghost j: Json, ghost l: Layout)
    returns (ghost j': Json, ghost l': Layout)
    requires Tracks(MapRef(root), j, l) && j.Obj? && segs != []
    requires segs[..|segs| - 1] in l.at && parent == l.at[segs[..|segs| - 1]]
    modifies parent
    ensures Tracks(MapRef(root), j', l') && Some(j') == ApplyAt(Delete, segs, Some(j))
    ensures l'.inSlices == l.inSlices && l'.Maps() <= l.Maps()
    ensures Placed(l, l', Op(segs, Delete), NO_LAYOUT)
    ensures ChangedAbove(l, old(ContentOf(l)), segs)
  {
    ghost var p, last := segs[..|segs| - 1], segs[|segs| - 1];
    assert segs == p + [last];
    OnePlaceEach(MapRef(root), j, l, p);
    GraftPlaced(l, segs, Delete, NO_LAYOUT);
    assert ApplyAt(Delete, segs, Some(j)).Some?;
    l' := DropEntry(MapRef(root), j, l, p, parent, segs[|segs| - 1]);
    j' := DeleteIn(j, p + [last]);
  }

  datatype Found = NotFound | Value(v: Val)

  /** The reference at `segs`. */
  method Walk(root: MapNode, segs: Path, ghost j: Json, ghost l: Layout) returns (found: Found)
    requires Tracks(MapRef(root), j, l)
    ensures match found
      case NotFound => Lookup(Some(j), segs) == None
      case Value(v) => Lookup(Some(j), segs).Some? && Holds(l, segs, v, Lookup(Some(j), segs).value)
  {
    var cur := MapRef(root);
    var i := 0;
    TracksRoot(MapRef(root), j, l);
    while i < |segs|
      invariant i <= |segs| && Tracks(MapRef(root), j, l)
      invariant Lookup(Some(j), segs[..i]).Some? && Holds(l, segs[..i], cur, Lookup(Some(j), segs[..i]).value)
    {
      ghost var p, below := segs[..i], segs[i + 1..];
      assert segs == p + [segs[i]] + below && segs[..i + 1] == p + [segs[i]];
      LookupAppend(Some(j), p, [segs[i]]);
      LookupAppend(Some(j), p + [segs[i]], below);
      LookupNothing(below);
      if !cur.MapRef? {
        return NotFound;
      }
      TracksEntry(MapRef(root), j, l, p, segs[i]);
      if segs[i] !in cur.m.fields {
        return NotFound;
      }
      cur := cur.m.fields[segs[i]];
      i := i + 1;
    }
    assert segs[..i] == segs;
    found := Value(cur);
  }

  // ----- copying -----

  /** deepCopy: the copy stands for the same value and consists of new maps and slices only. */
  method DeepCopy(v: Val, ghost j: Json, ghost S: set<object>) returns (c: Val, ghost l: Layout)
    requires Stands(v, j, S)
    ensures Tracks(c, j, l) && fresh(l.Maps()) && fresh(l.inSlices)
    decreases j, 2
  {
    match v
    case Leaf(_) =>
      c, l := v, NO_LAYOUT;
      NonMapTracks(v, j, {});
    case MapRef(m) =>
      c, l := CopyMap(m, j, S);
    case SliceRef(s) =>
      c, l := CopySlice(s, j, S);
  }

  method CopyMap(m: MapNode, ghost j: Json, ghost S: set<object>) returns (c: Val, ghost l: Layout)
    requires Stands(MapRef(m), j, S)
    ensures Tracks(c, j, l) && fresh(l.Maps()) && fresh(l.inSlices)
    decreases j, 1
  {
    var node := new MapNode();
    c, l := MapRef(node), Single(node);
    EmptyTracks(node);
    var rest := m.fields.Keys;
    assert j.fields - rest == map[];
    while rest != {}
      invariant rest <= j.fields.Keys && Stands(MapRef(m), j, S)
      invariant Tracks(c, Obj(j.fields - rest), l)
      invariant fresh(l.Maps()) && fresh(l.inSlices)
      decreases rest
    {
      var k :| k in rest;
      l := CopyMapEntry(m, node, k, j, S, rest, l);
      rest := rest - {k};
    }
    assert j.fields - {} == j.fields;
  }

  /** `c[k] = deepCopy(val)`; the entries under `rest` are still to be copied. */
  method CopyMapEntry(m: MapNode, node: MapNode, k: string, ghost j: Json, ghost S: set<object>,
                      ghost rest: set<string>, ghost l: Layout)
    returns (ghost l': Layout)
    requires Stands(MapRef(m), j, S) && k in rest && rest <= j.fields.Keys
    requires Tracks(MapRef(node), Obj(j.fields - rest), l)
    modifies node
    ensures Tracks(MapRef(node), Obj(j.fields - (rest - {k})), l')
    ensures fresh(l'.Maps() - l.Maps()) && fresh(l'.inSlices - l.inSlices)
    decreases j, 0
  {
    ghost var js := j.fields;
    RootMap(MapRef(node), Obj(js - rest), l);
    ghost var part;
    var w;
    w, part := DeepCopy(m.fields[k], js[k], S);
    assert ContentOf(l) == old(ContentOf(l));
    RootPut(js - rest, k, js[k]);
    OneEntryMore(js, rest, k);
    l' := StoreEntry(MapRef(node), Obj(js - rest), l, [], node, k, w, js[k], part);
  }

  lemma RootPut(m: Fields, k: string, j: Json)
    ensures PutIn(Obj(m), [] + [k], j) == Obj(m[k := j])
  {
    assert [] + [k] == [k] && [k][1..] == [];
    assert ApplyAt(Put(j), [k], Some(Obj(m)))
        == Some(Obj(WithChild(m, k, ApplyAt(Put(j), [], Child(Some(Obj(m)), k)))));
  }

  method CopySlice(s: SliceNode, ghost j: Json, ghost S: set<object>) returns (c: Val, ghost l: Layout)
    requires Stands(SliceRef(s), j, S)
    ensures Tracks(c, j, l) && fresh(l.Maps()) && fresh(l.inSlices)
    decreases j, 0
  {
    var out: seq<Val> := [];
    ghost var got: set<object> := {};
    while |out| < |s.elems|
      invariant |out| <= |s.elems| && Stands(SliceRef(s), j, S)
      invariant forall i | 0 <= i < |out| :: Stands(out[i], j.elems[i], got)
      invariant fresh(got)
    {
      ghost var je := j.elems[|out|];
      ghost var part;
      var w;
      w, part := DeepCopy(s.elems[|out|], je, S);
      TracksRoot(w, je, part);
      TracksStands(w, je, part, [], w, je);
      ghost var all := got + part.Objects();
      StandsMore(w, je, part.Objects(), all);
      forall i | 0 <= i < |out| ensures Stands(out[i], j.elems[i], all) {
        StandsMore(out[i], j.elems[i], got, all);
      }
      out, got := out + [w], all;
    }
    var node := new SliceNode(out);
    ghost var all := got + {node};
    forall i | 0 <= i < |out| ensures Stands(out[i], j.elems[i], all) {
      StandsMore(out[i], j.elems[i], got, all);
    }
    c, l := SliceRef(node), Layout(map[], all);
    NonMapTracks(c, j, all);
  }

  /** The value at the end of the walk, copied. */
  method Read(root: MapNode, segs: Path, ghost j: Json, ghost l: Layout) returns (found: Found, ghost copy: Layout)
    requires Tracks(MapRef(root), j, l)
    ensures match Lookup(Some(j), segs)
      case None => found == NotFound
      case Some(jv) => found.Value? && Tracks(found.v, jv, copy) && fresh(copy.Maps()) && fresh(copy.inSlices)
  {
    copy := NO_LAYOUT;
    found := Walk(root, segs, j, l);
    if found.Value? {
      ghost var jv := Lookup(Some(j), segs).value;
      assert ContentOf(l) == old(ContentOf(l));
      TracksStands(MapRef(root), j, l, segs, found.v, jv);
      var c;
      c, copy := DeepCopy(found.v, jv, l.Objects());
      found := Value(c);
    }
  }

  // ----- the database -----

  class DB {
    var root: MapNode
    const hub: Hub.Hub?<Val>
    /** The content, and where its maps lie. */
    ghost var tree: Fields
    ghost var layout: Layout

    /** The maps under the root are an unshared tree that stands for `tree`. */
    ghost predicate Sound()
      reads this, layout.Maps(), layout.inSlices
    {
      Tracks(MapRef(root), Obj(tree), layout) && this !in layout.inSlices
    }

    ghost function HubObjects(): set<object>
      reads hub
    {
      if hub == null then {} else {hub as object} + set c: Hub.Channel<Val> | c in hub.Channels() :: c as object
    }

    /** The hub shares no object with the layout. */
    ghost predicate OffHub(l: Layout)
      reads hub
    {
      (forall m | m in l.Maps() :: (m as object) !in HubObjects()) && HubObjects() !! l.inSlices
    }

    /** Everything of the database and the hub. */
    ghost function Footprint(): set<object>
      reads this, hub
    {
      {this} + layout.Objects() + HubObjects()
    }

    ghost predicate HubSound()
      reads HubObjects()
    {
      hub != null ==> hub.Valid()
    }

    ghost predicate Valid()
      reads this, layout.Maps(), layout.inSlices, HubObjects()
    {
      && Sound() && HubSound()
      && this !in HubObjects()
      && OffHub(layout)
    }

    /** An empty database. */
    constructor (hub: Hub.Hub?<Val>)
      requires hub != null ==> hub.Valid()
      ensures Valid() && tree == map[] && this.hub == hub && fresh(layout.Maps()) && fresh(layout.inSlices)
    {
      this.hub := hub;
      root := new MapNode();
      tree := map[];
      new;
      layout := Single(root);
      EmptyTracks(root);
      assert Sound();
      assert unchanged(HubObjects());
    }

    /** A value the caller may hand over: none of its objects is one of the database or the hub. */
    ghost predicate Separate(part: Layout)
      reads this, HubObjects()
    {
      && Apart(layout, part)
      && this !in part.inSlices
      && OffHub(part)
    }

    /** What a write leaves besides its effect on `tree`: no object that was not there, handed over or new. */
    twostate predicate Grown(part: Layout)
      reads this
    {
      && layout.inSlices <= old(layout.inSlices) + part.inSlices
      && forall m | m in layout.Maps() :: m in old(layout.Maps()) || m in part.Maps() || fresh(m)
    }

    /** The value at `path`, copied. */
    method Get(path: string) returns (found: Found, ghost l: Layout)
      requires Sound()
      ensures match Fetch(tree, SplitPath(path))
        case None => found == NotFound
        case Some(j) => found.Value? && Tracks(found.v, j, l) && fresh(l.Maps()) && fresh(l.inSlices)
    {
      found, l := Read(root, SplitPath(path), Obj(tree), layout);
    }

    /** Sends an event for a write to `path` to the hub, if there is one. */
    method Announce(kind: string, path: string, data: Val)
      requires Valid()
      modifies HubObjects()
      ensures Valid() && HubObjects() == old(HubObjects())
      ensures hub != null ==> hub.trace == old(hub.trace) + [Publish(Event(kind, EventPath(path), data))]
    {
      if hub != null {
        hub.Publish(Event(kind, EventPath(path), data));
        assert ContentOf(layout) == old(ContentOf(layout));
      }
    }

    /** Takes over the tree that a walk left. */
    method Install(r: MapNode, ghost m: Fields, ghost l: Layout)
      requires Tracks(MapRef(r), Obj(m), l) && this !in l.inSlices
      modifies `root, `tree, `layout
      ensures Sound() && root == r && tree == m && layout == l
    {
      assert forall n | n in l.Maps() :: n as object != this;
      root, tree, layout := r, m, l;
      assert ContentOf(l) == old(ContentOf(l));
    }

    /** The part of Set under the lock. */
    method StoreValue(path: string, value: Val, ghost j: Json, ghost part: Layout)
      requires Sound() && Tracks(value, j, part) && Apart(layout, part) && this !in part.inSlices
      modifies `root, `tree, `layout, layout.Maps()
      ensures Sound() && Grown(part)
      ensures Placed(old(layout), layout, Op(SplitPath(path), Put(j)), part)
      ensures ChangedBy(old(layout), old(ContentOf(layout)), Op(SplitPath(path), Put(j)))
      ensures tree == Apply(Op(SplitPath(path), Put(j)), old(tree))
    {
      ghost var j', l';
      var r;
      r, j', l' := Replace(root, SplitPath(path), value, Obj(tree), layout, j, part);
      Install(r, j'.fields, l');
    }

    /** Replaces the value at `path`; the caller hands over `value`, which stands for `j`. */
    method Set(path: string, value: Val, ghost j: Json, ghost part: Layout)
      requires Valid() && Tracks(value, j, part) && Separate(part)
      modifies `root, `tree, `layout, layout.Maps(), HubObjects()
      ensures Valid() && Grown(part) && HubObjects() == old(HubObjects())
      ensures Placed(old(layout), layout, Op(SplitPath(path), Put(j)), part)
      ensures ChangedBy(old(layout), old(ContentOf(layout)), Op(SplitPath(path), Put(j)))
      ensures tree == Apply(Op(SplitPath(path), Put(j)), old(tree))
      ensures hub != null ==> hub.trace == old(hub.trace) + [Publish(Event("put", EventPath(path), value))]
    {
      StoreValue(path, value, j, part);
      Announce("put", path, value);
    }

    /** The part of Update under the lock. */
    method MergeFields(path: string, value: MapNode, ghost js: Fields, ghost part: Layout)
      requires Sound() && Tracks(MapRef(value), Obj(js), part) && Apart(layout, part) && this !in part.inSlices
      modifies `root, `tree, `layout, layout.Maps()
      ensures Sound() && Grown(part)
      ensures Placed(old(layout), layout, Op(SplitPath(path), Patch(js)), part)
      ensures ChangedBy(old(layout), old(ContentOf(layout)), Op(SplitPath(path), Patch(js)))
      ensures tree == Apply(Op(SplitPath(path), Patch(js)), old(tree))
    {
      ghost var j', l';
      j', l' := UpdateAt(root, SplitPath(path), value, Obj(tree), layout, js, part);
      Install(root, j'.fields, l');
    }

    /** Merges the entries of the map `value`, which the caller hands over, into the object at `path`. */
    method Update(path: string, value: MapNode, ghost js: Fields, ghost part: Layout)
      requires Valid() && Tracks(MapRef(value), Obj(js), part) && Separate(part)
      modifies `root, `tree, `layout, layout.Maps(), HubObjects()
      ensures Valid() && Grown(part) && HubObjects() == old(HubObjects())
      ensures Placed(old(layout), layout, Op(SplitPath(path), Patch(js)), part)
      ensures ChangedBy(old(layout), old(ContentOf(layout)), Op(SplitPath(path), Patch(js)))
      ensures tree == Apply(Op(SplitPath(path), Patch(js)), old(tree))
      ensures hub != null ==> hub.trace == old(hub.trace) + [Publish(Event("patch", EventPath(path), MapRef(value)))]
    {
      MergeFields(path, value, js, part);
      Announce("patch", path, MapRef(value));
    }

    /** The part of Delete under the lock. */
    method RemoveValue(path: string)
      requires Sound()
      modifies `root, `tree, `layout, layout.Maps()
      ensures Sound() && Grown(NO_LAYOUT)
      ensures Placed(old(layout), layout, Op(SplitPath(path), JsonTree.Delete), NO_LAYOUT)
      ensures ChangedBy(old(layout), old(ContentOf(layout)), Op(SplitPath(path), JsonTree.Delete))
      ensures tree == Apply(Op(SplitPath(path), JsonTree.Delete), old(tree))
    {
      var segs := SplitPath(path);
      if |segs| == 0 {
        var r := new MapNode();
        EmptyTracks(r);
        Install(r, map[], Single(r));
      } else {
        ghost var j', l';
        j', l' := DeleteAt(root, segs, Obj(tree), layout);
        Install(root, j'.fields, l');
      }
    }

    /** Removes the value at `path`. */
    method Delete(path: string)
      requires Valid()
      modifies `root, `tree, `layout, layout.Maps(), HubObjects()
      ensures Valid() && Grown(NO_LAYOUT) && HubObjects() == old(HubObjects())
      ensures Placed(old(layout), layout, Op(SplitPath(path), JsonTree.Delete), NO_LAYOUT)
      ensures ChangedBy(old(layout), old(ContentOf(layout)), Op(SplitPath(path), JsonTree.Delete))
      ensures tree == Apply(Op(SplitPath(path), JsonTree.Delete), old(tree))
      ensures hub != null ==> hub.trace == old(hub.trace) + [Publish(Event("delete", EventPath(path), Leaf(Null)))]
    {
      RemoveValue(path);
      Announce("delete", path, Leaf(Null));
    }

    /** The generator shares no object with the database or with the layout. */
    ghost predicate Outside(gen: PushId.Generator, part: Layout)
      reads this, hub
    {
      && {gen as object, gen.lastRand} !! layout.inSlices + part.inSlices
      && {gen as object, gen.lastRand} !! HubObjects()
    }

    method NewKey(gen: PushId.Generator, now: nat, random: seq<nat>, ghost v: Val, ghost j: Json, ghost part: Layout)
      returns (key: string)
      requires Valid() && Tracks(v, j, part) && Separate(part)
      requires gen.Valid() && |random| == 12 && Outside(gen, part)
      modifies gen, gen.lastRand
      ensures Valid() && Tracks(v, j, part) && Separate(part) && gen.Valid()
      ensures unchanged(this) && HubObjects() == old(HubObjects())
      ensures gen.Model() == PushId.Next(old(gen.Model()), PushId.Call(now, PushId.Reduced(random)))
      ensures key == PushId.Id(gen.Model())
    {
      key := gen.Generate(now, random);
      assert unchanged(layout.Maps()) && unchanged(part.Maps()) && unchanged(HubObjects());
      assert ContentOf(layout) == old(ContentOf(layout)) && ContentOf(part) == old(ContentOf(part));
    }

    /** Puts `value` under a new key below `path`. */
    method Push(path: string, value: Val, gen: PushId.Generator, now: nat, random: seq<nat>,
                ghost j: Json, ghost part: Layout)
      returns (key: string)
      requires Valid() && Tracks(value, j, part) && Separate(part)
      requires gen.Valid() && |random| == 12 && Outside(gen, part)
      modifies `root, `tree, `layout, layout.Maps(), HubObjects(), gen, gen.lastRand
      ensures Valid() && gen.Valid() && Grown(part) && HubObjects() == old(HubObjects())
      ensures gen.Model() == PushId.Next(old(gen.Model()), PushId.Call(now, PushId.Reduced(random)))
      ensures key == PushId.Id(gen.Model())
      ensures Placed(old(layout), layout, Op(SplitPath(path) + [key], Put(j)), part)
      ensures ChangedBy(old(layout), old(ContentOf(layout)), Op(SplitPath(path) + [key], Put(j)))
      ensures tree == Apply(Op(SplitPath(path) + [key], Put(j)), old(tree))
      ensures hub != null ==>
        hub.trace == old(hub.trace) + [Publish(Event("put", EventPath(TrimRight(path) + "/" + key), value))]
    {
      key := NewKey(gen, now, random, value, j, part);
      PushId.KeyIsSegment(gen.Model());
      PushSegments(path, key);
      Set(TrimRight(path) + "/" + key, value, j, part);
    }
  }
}
