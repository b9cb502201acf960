/** The Go heap under the database: maps and slices reached through references, and how they stand for a
    JSON value. */
module Heap {
  import opened Options
  import opened Paths
  import opened JsonTree
  import opened TreeLaws

  /** A `map[string]any`. */
  class MapNode {
    var fields: map<string, Val>

    constructor ()
      ensures fields == map[]
    {
      fields := map[];
    }
  }

  /** A `[]any`. */
  class SliceNode {
    var elems: seq<Val>

    constructor (elems: seq<Val>)
      ensures this.elems == elems
    {
      this.elems := elems;
    }
  }

  /** An `any` as decoded from JSON. */
  datatype Val = Leaf(j: Json) | MapRef(m: MapNode) | SliceRef(s: SliceNode)

  /** `v` stands for `j`, and everything it reaches lies in `S`.  Parts may be shared. */
  ghost predicate Stands(v: Val, j: Json, S: set<object>)
    reads S
    decreases j
  {
    match v
    case Leaf(l) => l == j && !j.Obj? && !j.Arr?
    case MapRef(m) =>
      && m in S && j.Obj? && m.fields.Keys == j.fields.Keys
      && forall k | k in j.fields :: Stands(m.fields[k], j.fields[k], S)
    case SliceRef(s) =>
      && s in S && j.Arr? && |s.elems| == |j.elems|
      && forall i | 0 <= i < |j.elems| :: Stands(s.elems[i], j.elems[i], S)
  }

  /** Where the maps of a value lie: one map for each path that holds an object, and the objects reached
      through slices, which no path leads into. */
  datatype Layout = Layout(at: map<Path, MapNode>, inSlices: set<object>) {
    ghost function Maps(): set<MapNode> {
      at.Values
    }

    ghost function Objects(): set<object> {
      (set m: MapNode | m in Maps() :: m as object) + inSlices
    }
  }

  /** No map of one layout is an object of the other.  What lies below slices is never written and may be shared. */
  ghost predicate Apart(l: Layout, part: Layout) {
    && (forall m | m in l.Maps() :: m !in part.Maps() && m !in part.inSlices)
    && (forall m | m in part.Maps() :: m !in l.inSlices)
  }

  ghost predicate IsObject(v: Option<Json>) {
    v.Some? && v.value.Obj?
  }

  /** The reference `v` held at path `q` stands for `j`. */
  ghost predicate Holds(l: Layout, q: Path, v: Val, j: Json)
    reads l.inSlices
  {
    if j.Obj? then q in l.at && v == MapRef(l.at[q]) else !v.MapRef? && Stands(v, j, l.inSlices)
  }

  /** What the map at each path holds. */
  type Content = map<Path, map<string, Val>>

  ghost function ContentOf(l: Layout): (c: Content)
    reads l.Maps()
    ensures c.Keys == l.at.Keys
  {
    map p | p in l.at :: l.at[p].fields
  }

  /** The map at `p` has key `k` exactly if the value has a node there, and holds a reference to it. */
  ghost predicate EntryFits(j: Json, l: Layout, held: Content, p: Path, k: string)
    requires p in held
    reads l.inSlices
  {
    var below := Lookup(Some(j), p + [k]);
    && (k in held[p] <==> below.Some?)
    && (below.Some? ==> Holds(l, p + [k], held[p][k], below.value))
  }

  /** There is a map for `p` exactly if the value has an object there. */
  ghost predicate DomainFits(j: Json, l: Layout, p: Path) {
    p in l.at <==> IsObject(Lookup(Some(j), p))
  }

  ghost predicate OnePlace(l: Layout, p: Path, q: Path)
    requires p in l.at && q in l.at
  {
    && (l.at[p] == l.at[q] ==> p == q)
    && l.at[p] !in l.inSlices
  }

  /** Every map lies at one path only, and not below a slice. */
  ghost predicate Unshared(l: Layout) {
    forall p, q {:trigger OnePlace(l, p, q)} | p in l.at && q in l.at :: OnePlace(l, p, q)
  }

  /** With the maps of `l` holding `held`, `v` stands for `j` as an unshared tree of maps. */
  ghost predicate Fits(v: Val, j: Json, l: Layout, held: Content)
    reads l.inSlices
  {
    && held.Keys == l.at.Keys
    && Holds(l, [], v, j)
    && (forall p :: DomainFits(j, l, p))
    && (forall p, k | p in held :: EntryFits(j, l, held, p, k))
    && Unshared(l)
  }

  /** `v` stands for `j` as an unshared tree of maps, laid out as `l`. */
  ghost predicate Tracks(v: Val, j: Json, l: Layout)
    reads l.Maps(), l.inSlices
  {
    forall held | held == ContentOf(l) :: Fits(v, j, l, held)
  }

  lemma MapsAt(l: Layout, p: Path)
    requires p in l.at
    ensures l.at[p] in l.Maps()
  {
  }

  lemma {:induction false} StandsMore(v: Val, j: Json, S: set<object>, T: set<object>)
    requires Stands(v, j, S) && S <= T
    ensures Stands(v, j, T)
    decreases j
  {
    match v
    case Leaf(_) =>
    case MapRef(m) =>
      forall k | k in j.fields ensures Stands(m.fields[k], j.fields[k], T) {
        StandsMore(m.fields[k], j.fields[k], S, T);
      }
    case SliceRef(s) =>
      forall i | 0 <= i < |j.elems| ensures Stands(s.elems[i], j.elems[i], T) {
        StandsMore(s.elems[i], j.elems[i], S, T);
      }
  }

  /** What a tracked tree fits, one thing at a time. */
  lemma TracksRoot(v: Val, j: Json, l: Layout)
    requires Tracks(v, j, l)
    ensures Holds(l, [], v, j) && Unshared(l)
  {
    assert Fits(v, j, l, ContentOf(l));
  }

  lemma OnePlaceEach(v: Val, j: Json, l: Layout, q: Path)
    requires Tracks(v, j, l) && q in l.at
    ensures forall p | p in l.at && p != q :: l.at[p] != l.at[q]
  {
    assert Fits(v, j, l, ContentOf(l));
    forall p | p in l.at && p != q
      ensures l.at[p] != l.at[q]
    {
      assert OnePlace(l, p, q);
    }
  }

  lemma TracksMap(v: Val, j: Json, l: Layout, p: Path)
    requires Tracks(v, j, l) && p in l.at
    ensures IsObject(Lookup(Some(j), p))
  {
    assert Fits(v, j, l, ContentOf(l));
    assert DomainFits(j, l, p);
  }

  lemma TracksEntry(v: Val, j: Json, l: Layout, p: Path, k: string)
    requires Tracks(v, j, l) && p in l.at
    ensures EntryFits(j, l, ContentOf(l), p, k)
  {
    assert Fits(v, j, l, ContentOf(l));
  }

  /** A tracked tree stands for its value. */
  lemma TracksStands(v: Val, j: Json, l: Layout, p: Path, w: Val, jw: Json)
    requires Tracks(v, j, l) && Lookup(Some(j), p) == Some(jw) && Holds(l, p, w, jw)
    ensures Stands(w, jw, l.Objects())
  {
    assert Fits(v, j, l, ContentOf(l));
    forall r | r in l.at
      ensures l.at[r] in l.Objects()
    {
      MapsAt(l, r);
    }
    HeldStands(v, j, l, ContentOf(l), p, w, jw, l.Objects());
  }

  /** A part of a tree stands for its value as long as its own maps hold what they held. */
  lemma {:induction false} HeldStands(v: Val, j: Json, l: Layout, held: Content, p: Path, w: Val, jw: Json,
                                      S: set<object>)
    requires Fits(v, j, l, held) && Lookup(Some(j), p) == Some(jw) && Holds(l, p, w, jw)
    requires l.inSlices <= S && forall r | r in l.at && p <= r :: l.at[r].fields == held[r] && l.at[r] in S
    ensures Stands(w, jw, S)
    decreases jw
  {
    if jw.Obj? {
      var m := l.at[p];
      assert p <= p && m in S;
      forall k
        ensures k in m.fields <==> k in jw.fields
        ensures k in jw.fields ==> Stands(m.fields[k], jw.fields[k], S)
      {
        assert EntryFits(j, l, held, p, k);
        LookupAppend(Some(j), p, [k]);
        if k in jw.fields {
          assert forall r | r in l.at && p + [k] <= r :: p <= r;
          HeldStands(v, j, l, held, p + [k], m.fields[k], jw.fields[k], S);
        }
      }
    } else {
      StandsMore(w, jw, l.inSlices, S);
    }
  }

  // ----- which maps an operation writes, and which it moves -----

  /** The operation overwrites or removes what stands at `r`. */
  ghost predicate Cleared(op: Op, r: Path) {
    if op.edit.Patch? then op.path < r && r[|op.path|] in op.edit.fields else op.path <= r
  }

  /** The operation may write the map at `r`. */
  ghost predicate Written(op: Op, r: Path) {
    r < op.path || (op.edit.Patch? && r == op.path)
  }

  /** The map at `r` is where it was. */
  ghost predicate InPlace(l: Layout, l': Layout, op: Op, r: Path) {
    r in l.at && r in l'.at && l'.at[r] == l.at[r] && !Cleared(op, r)
  }

  /** The map at `r` is one of `part`, taken over with its place in it. */
  ghost predicate Taken(l': Layout, op: Op, part: Layout, r: Path) {
    && Cleared(op, r) && r in l'.at
    && r[|op.path|..] in part.at && l'.at[r] == part.at[r[|op.path|..]]
  }

  /** Maps that are not overwritten stay where they are, those of `part` are taken over, and all others are neither
      from here nor from there. */
  ghost predicate PlacedAs(l: Layout, l': Layout, op: Op, part: Layout) {
    && (forall r | r in l.at && !Cleared(op, r) :: InPlace(l, l', op, r))
    && (forall r | r in part.at && Cleared(op, op.path + r) :: Taken(l', op, part, op.path + r))
    && (forall r | r in l'.at :: InPlace(l, l', op, r) || Taken(l', op, part, r) || l'.at[r] !in l.Maps() + part.Maps())
  }

  ghost predicate Placed(l: Layout, l': Layout, op: Op, part: Layout) {
    forall now | now == l' :: PlacedAs(l, now, op, part)
  }

  /** Every map is where it was. */
  ghost predicate Widened(l: Layout, l': Layout) {
    forall r | r in l.at :: r in l'.at && l'.at[r] == l.at[r]
  }

  /** Among the maps that held `held`, only those above `q` hold something else. */
  ghost predicate ChangedAbove(l: Layout, held: Content, q: Path)
    reads l.Maps()
  {
    held.Keys == l.at.Keys && forall r | r in l.at && !(r < q) :: l.at[r].fields == held[r]
  }

  /** Only those that the operation may write. */
  ghost predicate ChangedBy(l: Layout, held: Content, op: Op)
    reads l.Maps()
  {
    held.Keys == l.at.Keys && forall r | r in l.at && !Written(op, r) :: l.at[r].fields == held[r]
  }

  lemma PlacedSince(l: Layout, l1: Layout, l': Layout, op: Op, part: Layout)
    requires Placed(l1, l', op, part) && Widened(l, l1) && Unshared(l1) && Apart(l1, part)
    ensures Placed(l, l', op, part)
  {
    assert PlacedAs(l1, l', op, part);
    forall r | r in l.at && !Cleared(op, r)
      ensures InPlace(l, l', op, r)
    {
      assert InPlace(l1, l', op, r);
    }
    forall r | r in l'.at && !InPlace(l, l', op, r) && !Taken(l', op, part, r)
      ensures l'.at[r] !in l.Maps() + part.Maps()
    {
      NewSince(l, l1, l', op, part, r);
    }
  }

  lemma NewSince(l: Layout, l1: Layout, l': Layout, op: Op, part: Layout, r: Path)
    requires Widened(l, l1) && Unshared(l1) && Apart(l1, part) && r in l'.at && !InPlace(l, l', op, r)
    requires InPlace(l1, l', op, r) || l'.at[r] !in l1.Maps() + part.Maps()
    ensures l'.at[r] !in l.Maps() + part.Maps()
  {
    forall p | p in l.at
      ensures l.at[p] != l'.at[r]
    {
      MapsAt(l1, p);
      if InPlace(l1, l', op, r) {
        assert OnePlace(l1, p, r);
      }
    }
    if InPlace(l1, l', op, r) {
      MapsAt(l1, r);
    }
  }

  // ----- replacing what one map holds under one key -----

  /** The layout after the part at `at` is replaced by the layout `part`. */
  ghost function Graft(l: Layout, q: Path, part: Layout): (r: Layout)
    ensures forall p :: p in r.at <==> if q <= p then p[|q|..] in part.at else p in l.at
    ensures forall p | p in r.at :: r.at[p] == if q <= p then part.at[p[|q|..]] else l.at[p]
    ensures r.inSlices == l.inSlices + part.inSlices
    ensures r.Maps() <= l.Maps() + part.Maps()
  {
    var moved := set p | p in part.at :: q + p;
    assert forall p | q <= p :: p == q + p[|q|..];
    var keys := (set p | p in l.at && !(q <= p)) + moved;
    forall p | p in moved
      ensures q <= p && p[|q|..] in part.at
    {
    }
    assert forall p | p in part.at :: (q + p)[|q|..] == p;
    var at := map p | p in keys :: if q <= p then part.at[p[|q|..]] else l.at[p];
    Layout(at, l.inSlices + part.inSlices)
  }

  const NO_LAYOUT: Layout := Layout(map[], {})

  /** What stands at path `r` once the entry at `q` is `c`. */
  ghost predicate ReplacedAt(j: Json, q: Path, c: Option<Json>, j': Json, r: Path) {
    var now := Lookup(Some(j'), r);
    if q <= r then now == Lookup(c, r[|q|..])
    else if r <= q then IsObject(now)
    else now == Lookup(Some(j), r)
  }

  ghost predicate Replaced(j: Json, q: Path, c: Option<Json>, j': Json) {
    forall r :: ReplacedAt(j, q, c, j', r)
  }

  lemma AncestorsAreObjects(j: Json, q: Path)
    requires IsObject(Lookup(Some(j), q))
    ensures forall r | r <= q :: IsObject(Lookup(Some(j), r))
  {
    forall r | r <= q
      ensures IsObject(Lookup(Some(j), r))
    {
      assert r + q[|r|..] == q;
      LookupAppend(Some(j), r, q[|r|..]);
      if r != q && !IsObject(Lookup(Some(j), r)) {
        LookupNothing(q[|r|..][1..]);
      }
    }
  }

  lemma HoldsMore(l: Layout, q: Path, v: Val, j: Json, l': Layout, q': Path)
    requires Holds(l, q, v, j)
    requires l.inSlices <= l'.inSlices
    requires q in l.at ==> q' in l'.at && l'.at[q'] == l.at[q]
    ensures Holds(l', q', v, j)
  {
    if !j.Obj? {
      StandsMore(v, j, l.inSlices, l'.inSlices);
    }
  }

  ghost function Entries(m: map<string, Val>, k: string, c: Option<Json>, w: Val): map<string, Val> {
    if c.Some? then m[k := w] else m - {k}
  }

  /** What the maps hold after the map at `q` had its entry `k` overwritten or removed. */
  ghost function ContentAfter(held: Content, q: Path, k: string, c: Option<Json>, w: Val, l': Layout, put: Content)
    : (r: Content)
    requires forall p | p in l'.at :: if q + [k] <= p then p[|q| + 1..] in put else p in held
  {
    map p | p in l'.at ::
      if q + [k] <= p then put[p[|q| + 1..]]
      else if p == q then Entries(held[q], k, c, w)
      else held[p]
  }

  /** A tree, an entry of the map at `q`, and what is to stand there: a separate tree, or nothing. */
  ghost predicate Replaceable(v: Val, j: Json, l: Layout, held: Content, q: Path, c: Option<Json>, w: Val,
                              part: Layout, put: Content)
    reads l.inSlices, part.inSlices
  {
    && Fits(v, j, l, held) && q in l.at
    && (if c.Some? then Fits(w, c.value, part, put) else part == NO_LAYOUT && put == map[])
    && Apart(l, part)
  }

  /** An entry keeps fitting when what it stands for and what it holds are carried over. */
  lemma EntryCarried(j: Json, l: Layout, held: Content, p: Path, e: string,
                     j': Json, l': Layout, held': Content, p': Path)
    requires p in held && EntryFits(j, l, held, p, e)
    requires p' in held' && (e in held'[p'] <==> e in held[p]) && (e in held[p] ==> held'[p'][e] == held[p][e])
    requires
      || Lookup(Some(j'), p' + [e]) == Lookup(Some(j), p + [e])
      || (IsObject(Lookup(Some(j'), p' + [e])) && IsObject(Lookup(Some(j), p + [e])))
    requires l.inSlices <= l'.inSlices
    requires p + [e] in l.at ==> p' + [e] in l'.at && l'.at[p' + [e]] == l.at[p + [e]]
    ensures EntryFits(j', l', held', p', e)
  {
    var below := Lookup(Some(j), p + [e]);
    if below.Some? {
      HoldsMore(l, p + [e], held[p][e], below.value, l', p' + [e]);
    }
  }

  lemma EntryInPart(j: Json, l: Layout, held: Content, q: Path, k: string, c: Option<Json>, w: Val,
                    part: Layout, put: Content, j': Json, p: Path, e: string)
    requires Replaced(j, q + [k], c, j') && q in held && (forall p | p in l.at :: p in held)
    requires c.Some? && (forall p :: p in put <==> p in part.at)
    requires q + [k] <= p && p[|q| + 1..] in put && EntryFits(c.value, part, put, p[|q| + 1..], e)
    ensures var l' := Graft(l, q + [k], part);
      EntryFits(j', l', ContentAfter(held, q, k, c, w, l', put), p, e)
  {
    var l' := Graft(l, q + [k], part);
    var s := p[|q| + 1..];
    assert (p + [e])[|q + [k]|..] == s + [e];
    assert q + [k] <= p + [e] && ReplacedAt(j, q + [k], c, j', p + [e]);
    EntryCarried(c.value, part, put, s, e, j', l', ContentAfter(held, q, k, c, w, l', put), p);
  }

  lemma EntryReplacing(j: Json, l: Layout, held: Content, q: Path, k: string, c: Option<Json>, w: Val,
                       part: Layout, put: Content, j': Json)
    requires Replaced(j, q + [k], c, j') && q in l.at && (forall p | p in l.at :: p in held)
    requires (forall p :: p in put <==> p in part.at) && (c.Some? ==> Holds(part, [], w, c.value))
    ensures var l' := Graft(l, q + [k], part);
      EntryFits(j', l', ContentAfter(held, q, k, c, w, l', put), q, k)
  {
    var qk, l' := q + [k], Graft(l, q + [k], part);
    assert qk[|qk|..] == [] && !(qk <= q);
    assert ReplacedAt(j, qk, c, j', qk);
    if c.Some? {
      HoldsMore(part, [], w, c.value, l', qk);
    }
  }

  /** Elsewhere the content is what it was. */
  lemma ContentElsewhere(l: Layout, held: Content, q: Path, k: string, c: Option<Json>, w: Val, part: Layout,
                         put: Content, p: Path, e: string)
    requires q in l.at && (forall p | p in l.at :: p in held) && (forall p :: p in put <==> p in part.at)
    requires !(q + [k] <= p) && p in l.at && (p == q ==> e != k)
    ensures var l' := Graft(l, q + [k], part); var held' := ContentAfter(held, q, k, c, w, l', put);
      p in held' && (e in held'[p] <==> e in held[p]) && (e in held[p] ==> held'[p][e] == held[p][e])
  {
  }

  /** Elsewhere there is the same value as before, or an object in both. */
  lemma ValueElsewhere(j: Json, q: Path, k: string, c: Option<Json>, j': Json, r: Path)
    requires Replaced(j, q + [k], c, j') && (forall r | r <= q :: IsObject(Lookup(Some(j), r))) && !(q + [k] <= r)
    ensures Lookup(Some(j'), r) == Lookup(Some(j), r)
      || (IsObject(Lookup(Some(j'), r)) && IsObject(Lookup(Some(j), r)))
  {
    assert r < q + [k] ==> r <= q;
    assert ReplacedAt(j, q + [k], c, j', r);
  }

  lemma EntryElsewhere(j: Json, l: Layout, held: Content, q: Path, k: string, c: Option<Json>, w: Val,
                       part: Layout, put: Content, j': Json, p: Path, e: string)
    requires Replaced(j, q + [k], c, j') && q in l.at && (forall p | p in l.at :: p in held)
    requires (forall p :: p in put <==> p in part.at) && (forall r | r <= q :: IsObject(Lookup(Some(j), r)))
    requires !(q + [k] <= p) && p in l.at && EntryFits(j, l, held, p, e) && p + [e] != q + [k]
    ensures var l' := Graft(l, q + [k], part);
      EntryFits(j', l', ContentAfter(held, q, k, c, w, l', put), p, e)
  {
    var l', r := Graft(l, q + [k], part), p + [e];
    assert q + [k] <= r ==> q + [k] <= p;
    ContentElsewhere(l, held, q, k, c, w, part, put, p, e);
    ValueElsewhere(j, q, k, c, j', r);
    EntryCarried(j, l, held, p, e, j', l', ContentAfter(held, q, k, c, w, l', put), p);
  }

  lemma SnocCancel(p: Path, e: string, q: Path, k: string)
    requires p + [e] == q + [k]
    ensures p == q && e == k
  {
    assert p == (p + [e])[..|p|] && e == (p + [e])[|p|];
    assert q == (q + [k])[..|q|] && k == (q + [k])[|q|];
  }

  lemma DomainAfter(j: Json, l: Layout, q: Path, k: string, c: Option<Json>, part: Layout, j': Json, p: Path)
    requires DomainFits(j, l, q) && DomainFits(j, l, p)
    requires if c.Some? then q + [k] <= p ==> DomainFits(c.value, part, p[|q| + 1..]) else part == NO_LAYOUT
    requires q in l.at && ReplacedAt(j, q + [k], c, j', p)
    ensures DomainFits(j', Graft(l, q + [k], part), p)
  {
    var qk := q + [k];
    AncestorsAreObjects(j, q);
    if p < qk {
      assert p <= q;
    } else if c.None? && qk <= p {
      LookupNothing(p[|qk|..]);
    }
  }

  lemma EntryAfter(v: Val, j: Json, l: Layout, held: Content, q: Path, k: string, c: Option<Json>, w: Val,
                   part: Layout, put: Content, j': Json, p: Path, e: string)
    requires Replaceable(v, j, l, held, q, c, w, part, put) && Replaced(j, q + [k], c, j')
    requires p in Graft(l, q + [k], part).at
    ensures var l' := Graft(l, q + [k], part);
      EntryFits(j', l', ContentAfter(held, q, k, c, w, l', put), p, e)
  {
    var qk := q + [k];
    if qk <= p {
      assert EntryFits(c.value, part, put, p[|qk|..], e);
      EntryInPart(j, l, held, q, k, c, w, part, put, j', p, e);
    } else if p == q && e == k {
      EntryReplacing(j, l, held, q, k, c, w, part, put, j');
    } else {
      assert EntryFits(j, l, held, p, e);
      if p + [e] == qk { SnocCancel(p, e, q, k); }
      assert DomainFits(j, l, q);
      AncestorsAreObjects(j, q);
      EntryElsewhere(j, l, held, q, k, c, w, part, put, j', p, e);
    }
  }

  /** Overwriting or removing one entry of one map of the tree leaves an unshared tree again, which stands for
      the value in which that entry, and nothing else, is replaced. */
  lemma EntryReplaced(v: Val, j: Json, l: Layout, held: Content, q: Path, k: string, c: Option<Json>, w: Val,
                      part: Layout, put: Content, j': Json)
    requires Replaceable(v, j, l, held, q, c, w, part, put) && Replaced(j, q + [k], c, j')
    requires j.Obj? && j'.Obj?
    ensures var l' := Graft(l, q + [k], part);
      Fits(v, j', l', ContentAfter(held, q, k, c, w, l', put))
  {
    var l' := Graft(l, q + [k], part);
    var held' := ContentAfter(held, q, k, c, w, l', put);
    forall p
      ensures DomainFits(j', l', p)
    {
      assert DomainFits(j, l, q) && DomainFits(j, l, p) && ReplacedAt(j, q + [k], c, j', p);
      assert c.Some? && q + [k] <= p ==> DomainFits(c.value, part, p[|q| + 1..]);
      DomainAfter(j, l, q, k, c, part, j', p);
    }
    forall p, e | p in held'
      ensures EntryFits(j', l', held', p, e)
    {
      EntryAfter(v, j, l, held, q, k, c, w, part, put, j', p, e);
    }
    StillUnshared(l, q + [k], part);
  }

  /** Grafting separate, unshared layouts gives an unshared one. */
  lemma StillUnshared(l: Layout, q: Path, part: Layout)
    requires Apart(l, part)
    requires Unshared(l) && Unshared(part)
    ensures Unshared(Graft(l, q, part))
  {
    var r := Graft(l, q, part);
    forall a, b | a in r.at && b in r.at
      ensures OnePlace(r, a, b)
    {
      if q <= a { MapsAt(part, a[|q|..]); assert a == q + a[|q|..]; } else { MapsAt(l, a); }
      if q <= b { MapsAt(part, b[|q|..]); assert b == q + b[|q|..]; } else { MapsAt(l, b); }
      if q <= a && q <= b {
        assert OnePlace(part, a[|q|..], b[|q|..]);
      } else if q <= a {
        assert OnePlace(part, a[|q|..], a[|q|..]);
      } else if q <= b {
        assert OnePlace(l, a, a);
      } else {
        assert OnePlace(l, a, b);
      }
    }
  }

  // ----- the two writes -----

  /** The value with `jw` put at `q`, and with whatever is at `q` removed. */
  ghost function PutIn(j: Json, q: Path, jw: Json): Json {
    ApplyAt(Put(jw), q, Some(j)).value
  }

  ghost function DeleteIn(j: Json, q: Path): Json
    requires q != []
  {
    ApplyAt(Delete, q, Some(j)).value
  }

  lemma PutReplaces(j: Json, q: Path, k: string, jw: Json)
    requires IsObject(Lookup(Some(j), q))
    ensures Replaced(j, q + [k], Some(jw), PutIn(j, q + [k], jw)) && PutIn(j, q + [k], jw).Obj?
  {
    EditReplaces(j, q, k, Put(jw));
  }

  lemma DeleteReplaces(j: Json, q: Path, k: string)
    requires IsObject(Lookup(Some(j), q))
    ensures Replaced(j, q + [k], None, DeleteIn(j, q + [k])) && DeleteIn(j, q + [k]).Obj?
  {
    EditReplaces(j, q, k, Delete);
  }

  lemma EditReplaces(j: Json, q: Path, k: string, e: Edit)
    requires IsObject(Lookup(Some(j), q)) && !e.Patch?
    ensures var r := ApplyAt(e, q + [k], Some(j));
      IsObject(r) && Replaced(j, q + [k], if e.Put? then Some(e.value) else None, r.value)
  {
    var qk := q + [k];
    var r := ApplyAt(e, qk, Some(j));
    AncestorsAreObjects(j, q);
    assert [] <= q && IsObject(Lookup(Some(j), []));
    var c := if e.Put? then Some(e.value) else None;
    forall p
      ensures ReplacedAt(j, qk, c, r.value, p)
    {
      ProjectAt(e, qk, p, Some(j));
      ProjectCases(e, qk, p, Lookup(Some(j), p));
      if qk <= p {
        LookupNothing(p[|qk|..]);
      } else if p < qk {
        assert p <= q && qk[|p|..] != [];
      }
    }
  }

  lemma GraftPlaces(l: Layout, q: Path, k: string, part: Layout)
    requires q in l.at
    ensures var r := Graft(l, q + [k], part);
      && q in r.at && r.at[q] == l.at[q]
      && ([] in part.at ==> q + [k] in r.at && r.at[q + [k]] == part.at[[]])
  {
    assert (q + [k])[|q + [k]|..] == [];
  }

  /** Grafting is what a put or a removal at the place does. */
  lemma GraftPlaced(l: Layout, q: Path, e: Edit, part: Layout)
    requires !e.Patch?
    ensures Placed(l, Graft(l, q, part), Op(q, e), part)
  {
    forall r | r in part.at
      ensures Taken(Graft(l, q, part), Op(q, e), part, q + r)
    {
      assert (q + r)[|q|..] == r;
    }
  }

  /** `m[k] = w` on one map of a tree, the caller handing over the tree `w`. */
  method StoreEntry(ghost v: Val, ghost j: Json, ghost l: Layout, ghost q: Path, m: MapNode, k: string,
                    w: Val, ghost jw: Json, ghost part: Layout)
    returns (ghost l': Layout)
    requires Tracks(v, j, l) && j.Obj? && q in l.at && l.at[q] == m
    requires Tracks(w, jw, part) && Apart(l, part)
    modifies m
    ensures m.fields == old(m.fields)[k := w]
    ensures Tracks(v, PutIn(j, q + [k], jw), l')
    ensures l'.Maps() <= l.Maps() + part.Maps() && l'.inSlices == l.inSlices + part.inSlices
    ensures q in l'.at && l'.at[q] == m
    ensures jw.Obj? ==> q + [k] in l'.at && w == MapRef(l'.at[q + [k]])
    ensures l' == Graft(l, q + [k], part)
  {
    ghost var held, put := ContentOf(l), ContentOf(part);
    assert Fits(v, j, l, held) && Fits(w, jw, part, put);
    assert DomainFits(j, l, q);
    WriteTarget(v, j, l, q, part);
    assert Holds(part, [], w, jw);
    assert Replaceable(v, j, l, held, q, Some(jw), w, part, put);
    m.fields := m.fields[k := w];
    assert Fits(v, j, l, held) && Fits(w, jw, part, put);
    assert forall p | p in l.at :: l.at[p].fields == if p == q then held[q][k := w] else held[p];
    assert forall p | p in part.at :: part.at[p].fields == put[p];
    l' := Graft(l, q + [k], part);
    GraftPlaces(l, q, k, part);
    PutReplaces(j, q, k, jw);
    WrittenTracks(v, j, l, held, q, k, Some(jw), w, part, put, PutIn(j, q + [k], jw));
  }

  /** `delete(m, k)` on one map of a tree. */
  method DropEntry(ghost v: Val, ghost j: Json, ghost l: Layout, ghost q: Path, m: MapNode, k: string)
    returns (ghost l': Layout)
    requires Tracks(v, j, l) && j.Obj? && q in l.at && l.at[q] == m
    modifies m
    ensures m.fields == old(m.fields) - {k}
    ensures Tracks(v, DeleteIn(j, q + [k]), l')
    ensures l'.Maps() <= l.Maps() && l'.inSlices == l.inSlices
    ensures l' == Graft(l, q + [k], NO_LAYOUT)
  {
    ghost var held := ContentOf(l);
    assert Fits(v, j, l, held);
    assert DomainFits(j, l, q);
    WriteTarget(v, j, l, q, NO_LAYOUT);
    m.fields := m.fields - {k};
    l' := Graft(l, q + [k], NO_LAYOUT);
    DeleteReplaces(j, q, k);
    WrittenTracks(v, j, l, held, q, k, None, v, NO_LAYOUT, map[], DeleteIn(j, q + [k]));
  }

  /** The tree after one of its maps, and nothing else, was written. */
  lemma WrittenTracks(v: Val, j: Json, l: Layout, held: Content, q: Path, k: string, c: Option<Json>, w: Val,
                      part: Layout, put: Content, j': Json)
    requires Replaceable(v, j, l, held, q, c, w, part, put) && Replaced(j, q + [k], c, j')
    requires j.Obj? && j'.Obj?
    requires forall p | p in l.at :: l.at[p].fields == if p == q then Entries(held[q], k, c, w) else held[p]
    requires forall p | p in part.at :: part.at[p].fields == put[p]
    ensures Tracks(v, j', Graft(l, q + [k], part))
  {
    var l' := Graft(l, q + [k], part);
    ContentWritten(l, held, q, k, c, w, part, put);
    EntryReplaced(v, j, l, held, q, k, c, w, part, put, j');
    TracksWhatItHolds(v, j', l', ContentAfter(held, q, k, c, w, l', put));
  }

  lemma ContentWritten(l: Layout, held: Content, q: Path, k: string, c: Option<Json>, w: Val, part: Layout,
                       put: Content)
    requires held.Keys == l.at.Keys && put.Keys == part.at.Keys && q in l.at
    requires forall p | p in l.at :: l.at[p].fields == if p == q then Entries(held[q], k, c, w) else held[p]
    requires forall p | p in part.at :: part.at[p].fields == put[p]
    ensures ContentOf(Graft(l, q + [k], part)) == ContentAfter(held, q, k, c, w, Graft(l, q + [k], part), put)
  {
  }

  lemma TracksWhatItHolds(v: Val, j: Json, l: Layout, held: Content)
    requires Fits(v, j, l, held)
    requires ContentOf(l) == held
    ensures Tracks(v, j, l)
  {
  }

  /** The written map is none of the other maps and none of the objects below a slice. */
  lemma WriteTarget(v: Val, j: Json, l: Layout, q: Path, part: Layout)
    requires Tracks(v, j, l) && q in l.at && Apart(l, part)
    ensures forall p | p in l.at && p != q :: l.at[p] != l.at[q]
    ensures forall p | p in part.at :: part.at[p] != l.at[q]
    ensures l.at[q] !in l.inSlices && l.at[q] !in part.inSlices
  {
    MapsAt(l, q);
    assert Fits(v, j, l, ContentOf(l));
    forall p | p in l.at
      ensures p != q ==> l.at[p] != l.at[q]
    {
      assert OnePlace(l, p, q);
    }
    assert OnePlace(l, q, q);
    forall p | p in part.at
      ensures part.at[p] != l.at[q]
    {
      MapsAt(part, p);
    }
  }

  // ----- building and taking apart -----

  function Single(m: MapNode): Layout {
    Layout(map[[] := m], {})
  }

  /** An empty map by itself. */
  lemma EmptyTracks(m: MapNode)
    requires m.fields == map[]
    ensures Tracks(MapRef(m), Obj(map[]), Single(m))
  {
    var j := Obj(map[]);
    forall p
      ensures DomainFits(j, Single(m), p)
      ensures p != [] ==> Lookup(Some(j), p) == None
    {
      if p != [] { LookupNothing(p[1..]); }
    }
  }

  /** The part of a layout below key `k` of its root. */
  ghost function Below(l: Layout, k: string): (r: Layout)
    ensures forall p :: p in r.at <==> [k] + p in l.at
    ensures forall p | p in r.at :: r.at[p] == l.at[[k] + p]
    ensures r.inSlices == l.inSlices
  {
    var under := set p | p in l.at && [k] <= p :: p[1..];
    forall p
      ensures p in under <==> [k] + p in l.at
    {
      assert ([k] + p)[1..] == p;
      assert p in under ==> exists r :: r in l.at && [k] <= r && r[1..] == p && r == [k] + p;
    }
    Layout(map p | p in under :: l.at[[k] + p], l.inSlices)
  }

  lemma BelowTracks(v: Val, j: Json, l: Layout, k: string)
    requires Tracks(v, j, l) && j.Obj? && k in j.fields
    ensures [] in l.at && k in l.at[[]].fields
    ensures Tracks(l.at[[]].fields[k], j.fields[k], Below(l, k))
  {
    var held, b := ContentOf(l), Below(l, k);
    var c := j.fields[k];
    assert Fits(v, j, l, held);
    forall p
      ensures Lookup(Some(c), p) == Lookup(Some(j), [k] + p) && DomainFits(c, b, p)
    {
      assert ([k] + p)[1..] == p;
      assert DomainFits(j, l, [k] + p);
    }
    assert DomainFits(j, l, []);
    assert EntryFits(j, l, held, [], k);
    assert [] + [k] == [k] + [] && [] + [k] == [k];
    assert Lookup(Some(c), []) == Lookup(Some(j), [k]);
    HoldsMore(l, [k], held[[]][k], c, Layout(l.at, l.inSlices), [k]);
    forall p, e | p in b.at
      ensures EntryFits(c, b, ContentOf(b), p, e)
    {
      assert EntryFits(j, l, held, [k] + p, e);
      assert [k] + p + [e] == [k] + (p + [e]);
      EntryCarried(j, l, held, [k] + p, e, c, b, ContentOf(b), p);
    }
    forall p, q | p in b.at && q in b.at
      ensures OnePlace(b, p, q)
    {
      assert OnePlace(l, [k] + p, [k] + q);
      assert p == ([k] + p)[1..] && q == ([k] + q)[1..];
    }
  }

  lemma BelowApart(l: Layout, j: string, k: string)
    requires Unshared(l)
    ensures Below(l, k).Maps() <= l.Maps()
    ensures j != k ==> Below(l, j).Maps() !! Below(l, k).Maps()
  {
    if j != k {
      forall p, q | p in Below(l, j).at && q in Below(l, k).at
        ensures Below(l, j).at[p] != Below(l, k).at[q]
      {
        assert ([j] + p)[0] != ([k] + q)[0];
        assert OnePlace(l, [j] + p, [k] + q);
      }
    }
  }

  /** A tree that is put in place of everything. */
  lemma WholePlaced(l: Layout, e: Edit, part: Layout)
    requires !e.Patch?
    ensures Placed(l, part, Op([], e), part)
  {
    forall r | r in part.at
      ensures Taken(part, Op([], e), part, [] + r)
    {
      assert [] + r == r && r[0..] == r;
    }
  }

  lemma NoMaps(v: Val, j: Json, l: Layout)
    requires Tracks(v, j, l) && !j.Obj?
    ensures l.at == map[]
  {
    assert Fits(v, j, l, ContentOf(l));
    forall r
      ensures r !in l.at
    {
      assert DomainFits(j, l, r);
      if r != [] { LookupNothing(r[1..]); }
    }
  }

  // ----- reading one step down -----

  /** The map at `p` refers to another map under `k` exactly if the value has an object there. */
  lemma ChildMap(v: Val, j: Json, l: Layout, p: Path, k: string)
    requires Tracks(v, j, l) && p in l.at
    ensures l.at[p] in l.Maps()
    ensures IsObject(Lookup(Some(j), p + [k])) <==> k in l.at[p].fields && l.at[p].fields[k].MapRef?
    ensures IsObject(Lookup(Some(j), p + [k])) ==>
      p + [k] in l.at && l.at[p].fields[k] == MapRef(l.at[p + [k]])
  {
    assert Fits(v, j, l, ContentOf(l));
    assert EntryFits(j, l, ContentOf(l), p, k);
  }

  lemma RootMap(v: Val, j: Json, l: Layout)
    requires Tracks(v, j, l) && j.Obj?
    ensures [] in l.at && v == MapRef(l.at[[]])
  {
    assert Fits(v, j, l, ContentOf(l));
  }

  lemma RootKeys(v: Val, j: Json, l: Layout)
    requires Tracks(v, j, l) && j.Obj?
    ensures [] in l.at && l.at[[]].fields.Keys == j.fields.Keys
  {
    RootMap(v, j, l);
    assert Fits(v, j, l, ContentOf(l));
    forall k
      ensures k in l.at[[]].fields <==> k in j.fields
    {
      assert EntryFits(j, l, ContentOf(l), [], k);
      assert [] + [k] == [k];
      LookupAppend(Some(j), [], [k]);
    }
  }

  /** The parts below two keys of a value can be taken over one after the other. */
  lemma BelowStaysApart(l: Layout, part: Layout, j: string, k: string, l': Layout)
    requires Unshared(part) && j != k
    requires Apart(l, Below(part, j)) && Apart(l, Below(part, k))
    requires l'.Maps() <= l.Maps() + Below(part, j).Maps() && l'.inSlices <= l.inSlices + part.inSlices
    ensures Apart(l', Below(part, k))
  {
    BelowApart(part, j, k);
    BelowOutside(part, j);
    BelowOutside(part, k);
  }

  lemma BelowOutside(part: Layout, k: string)
    requires Unshared(part)
    ensures forall m | m in Below(part, k).Maps() :: m !in part.inSlices
  {
    forall m | m in Below(part, k).Maps()
      ensures m !in part.inSlices
    {
      var p :| p in Below(part, k).at && Below(part, k).at[p] == m;
      assert OnePlace(part, [k] + p, [k] + p);
    }
  }

  /** A value that is no map is tracked by a layout without maps. */
  lemma NonMapTracks(v: Val, j: Json, S: set<object>)
    requires !j.Obj? && !v.MapRef? && Stands(v, j, S)
    ensures Tracks(v, j, Layout(map[], S))
  {
    forall p
      ensures DomainFits(j, Layout(map[], S), p)
    {
      if p != [] { LookupNothing(p[1..]); }
    }
  }
}
