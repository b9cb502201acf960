/** Events hold references into the tree: what a write stored is shared between the tree and its event, and later
    writes below it change both, until a write at or above it takes it out of the tree. */
module Sharing {
  import opened Options
  import opened Paths
  import opened JsonTree
  import opened TreeLaws
  import opened Reorder

  /** A stored value, and whether it is still the one in the tree. */
  datatype Ref = Ref(v: Json, attached: bool)

  /** What `op` does to the value stored at `p`.  An object in the tree is changed in place by what is at or below
      it; a value that is none, and whatever is overwritten or removed, is left as it is. */
  function Touch(r: Ref, p: Path, op: Op): Ref {
    if !r.attached || !Comparable(p, op.path) then r
    else if |op.path| < |p| then r.(attached := op.edit.Patch? && p[|op.path|] !in op.edit.fields)
    else
      var below := op.path[|p|..];
      if !r.v.Obj? then r.(attached := op.edit.Delete? && below != [])
      else if below == [] && !op.edit.Patch? then r.(attached := false)
      else Ref(ApplyAt(op.edit, below, Some(r.v)).value, true)
  }

  /** The data of an event: the value of a put, or the entries of a patch, each stored under its key. */
  datatype Shared = Whole(r: Ref) | Entries(rs: map<string, Ref>) | Nothing

  function Fresh(e: Edit): Shared {
    match e
    case Put(v) => Whole(Ref(v, true))
    case Patch(fs) => Entries(map k | k in fs :: Ref(fs[k], true))
    case Delete => Nothing
  }

  function Evolve(sh: Shared, p: Path, op: Op): Shared {
    match sh
    case Whole(r) => Whole(Touch(r, p, op))
    case Entries(rs) => Entries(map k | k in rs :: Touch(rs[k], p + [k], op))
    case Nothing => Nothing
  }

  /** The edit that the event stands for when it is read. */
  function Now(sh: Shared): Edit {
    match sh
    case Whole(r) => Put(r.v)
    case Entries(rs) => Patch(map k | k in rs :: rs[k].v)
    case Nothing => Delete
  }

  function Shares(e: Edit, p: Path, later: seq<Op>): (sh: Shared)
    ensures (sh.Whole? <==> e.Put?) && (sh.Entries? <==> e.Patch?)
  {
    if later == [] then Fresh(e) else Evolve(Shares(e, p, later[..|later| - 1]), p, later[|later| - 1])
  }

  /** The operation that the event of `op` stands for when it is read after the operations `later`. */
  function ReadAfter(op: Op, later: seq<Op>): Op {
    Op(op.path, Now(Shares(op.edit, op.path, later)))
  }

  /** The later operations that have changed the data. */
  function Hits(op: Op, later: seq<Op>): (hits: seq<nat>)
    ensures Within(hits, |later|)
  {
    if later == [] then []
    else
      var front := later[..|later| - 1];
      Hits(op, front) + if ReadAfter(op, later) != ReadAfter(op, front) then [|front|] else []
  }

  /** The data with which the event of an edit is sent on. */
  function Payload(e: Edit): Json {
    match e
    case Put(v) => v
    case Patch(fs) => Obj(fs)
    case Delete => Null
  }

  // ----- what is attached is what the database holds -----

  lemma TouchReads(r: Ref, p: Path, op: Op, tree: Fields)
    requires r.attached && Fetch(tree, p) == Some(r.v)
    ensures Touch(r, p, op).attached ==> Fetch(Apply(op, tree), p) == Some(Touch(r, p, op).v)
  {
    SubtreeProjection(op, tree, p);
    ProjectCases(op.edit, op.path, p, Some(r.v));
    if p <= op.path && op.edit.Delete? && !r.v.Obj? && op.path != p {
      assert op.path[|p|..] != [];
    }
  }

  /** As long as the value of a put is attached, it is what the database holds at its path. */
  lemma {:induction false} AttachedReads(v: Json, p: Path, later: seq<Op>, root: Fields)
    requires p != [] || v.Obj?
    ensures var r := Shares(Put(v), p, later).r;
      r.attached ==> Fetch(Run(later, Apply(Op(p, Put(v)), root)), p) == Some(r.v)
    decreases |later|
  {
    if later == [] {
      SubtreeProjection(Op(p, Put(v)), root, p);
      ProjectCases(Put(v), p, p, Fetch(root, p));
    } else {
      var front := later[..|later| - 1];
      AttachedReads(v, p, front, root);
      var r := Shares(Put(v), p, front).r;
      if r.attached {
        TouchReads(r, p, later[|later| - 1], Run(front, Apply(Op(p, Put(v)), root)));
      }
    }
  }

  // ----- reading late is reading at once, and some later operations already -----

  /** An edit below a value that is put, done to the value first. */
  lemma {:induction false} PutThen(e: Edit, p: Path, r: Path, v: Json, x: Option<Json>)
    requires ApplyAt(e, r, Some(v)).Some?
    ensures ApplyAt(e, p + r, ApplyAt(Put(v), p, x)) == ApplyAt(Put(ApplyAt(e, r, Some(v)).value), p, x)
    decreases |p|
  {
    if p == [] {
      assert p + r == r;
    } else {
      var k, w := p[0], ApplyAt(e, r, Some(v)).value;
      assert (p + r)[0] == k && (p + r)[1..] == p[1..] + r;
      PutThen(e, p[1..], r, v, Child(x, k));
      ChildAfter(Put(v), p, x, k);
      WithChildTwice(FieldsOf(x), k, ApplyAt(Put(v), p[1..], Child(x, k)), ApplyAt(Put(w), p[1..], Child(x, k)));
    }
  }

  lemma PatchedField(m: Fields, fs: Fields, k: string, j: Json)
    requires k in fs
    ensures m + fs[k := j] == (m + fs)[k := j]
  {
  }

  /** The same for one entry of a patch. */
  lemma {:induction false} PatchThen(e: Edit, p: Path, k: string, r: Path, fs: Fields, x: Option<Json>)
    requires k in fs && ApplyAt(e, r, Some(fs[k])).Some?
    ensures ApplyAt(e, p + ([k] + r), ApplyAt(Patch(fs), p, x))
         == ApplyAt(Patch(fs[k := ApplyAt(e, r, Some(fs[k])).value]), p, x)
    decreases |p|
  {
    var gs := fs[k := ApplyAt(e, r, Some(fs[k])).value];
    var q := p + ([k] + r);
    if p == [] {
      assert q == [k] + r && q[0] == k && q[1..] == r;
      PatchedField(FieldsOf(x), fs, k, gs[k]);
    } else {
      var j := p[0];
      assert q[0] == j && q[1..] == p[1..] + ([k] + r);
      PatchThen(e, p[1..], k, r, fs, Child(x, j));
      ChildAfter(Patch(fs), p, x, j);
      WithChildTwice(FieldsOf(x), j, ApplyAt(Patch(fs), p[1..], Child(x, j)), ApplyAt(Patch(gs), p[1..], Child(x, j)));
    }
  }

  /** A value that is changed was an object in the tree, and the operation is at or below it. */
  lemma Changed(r: Ref, p: Path, op: Op)
    requires Touch(r, p, op).v != r.v
    ensures p <= op.path && ApplyAt(op.edit, op.path[|p|..], Some(r.v)) == Some(Touch(r, p, op).v)
  {
  }

  lemma WholeEffect(r: Ref, p: Path, op: Op, root: Fields)
    requires Touch(r, p, op).v != r.v
    ensures p <= op.path
    ensures Apply(Op(p, Put(Touch(r, p, op).v)), root) == Apply(op, Apply(Op(p, Put(r.v)), root))
  {
    var x := Some(Obj(root));
    Changed(r, p, op);
    assert op.path == p + op.path[|p|..];
    PutThen(op.edit, p, op.path[|p|..], r.v, x);
    RootForm(op, ApplyAt(Put(r.v), p, x));
  }

  lemma EntryEffect(fs: Fields, r: Ref, p: Path, k: string, op: Op, root: Fields)
    requires k in fs && fs[k] == r.v && Touch(r, p + [k], op).v != r.v
    ensures p <= op.path
    ensures Apply(Op(p, Patch(fs[k := Touch(r, p + [k], op).v])), root) == Apply(op, Apply(Op(p, Patch(fs)), root))
  {
    var x := Some(Obj(root));
    Changed(r, p + [k], op);
    var below := op.path[|p + [k]|..];
    assert op.path == p + ([k] + below);
    PatchThen(op.edit, p, k, below, fs, x);
    RootForm(op, ApplyAt(Patch(fs), p, x));
  }

  /** Either the data is not changed, or the operation that changes it is done as well. */
  lemma EvolveEffect(sh: Shared, p: Path, op: Op, root: Fields)
    requires Now(Evolve(sh, p, op)) != Now(sh)
    ensures p <= op.path
    ensures Apply(Op(p, Now(Evolve(sh, p, op))), root) == Apply(op, Apply(Op(p, Now(sh)), root))
  {
    match sh
    case Whole(r) => WholeEffect(r, p, op, root);
    case Entries(rs) => EntriesEffect(rs, p, op, root);
  }

  lemma EntriesEffect(rs: map<string, Ref>, p: Path, op: Op, root: Fields)
    requires Now(Evolve(Entries(rs), p, op)) != Now(Entries(rs))
    ensures p <= op.path
    ensures Apply(Op(p, Now(Evolve(Entries(rs), p, op))), root) == Apply(op, Apply(Op(p, Now(Entries(rs))), root))
  {
    var fs, gs := Now(Entries(rs)).fields, Now(Evolve(Entries(rs), p, op)).fields;
    var k :| k in fs && fs[k] != gs[k];
    EntryEffect(fs, rs[k], p, k, op, root);
    Changed(rs[k], p + [k], op);
    OneEntry(rs, p, op, k);
    assert gs == fs[k := gs[k]];
  }

  /** Only the entry that the path leads into is changed. */
  lemma OneEntry(rs: map<string, Ref>, p: Path, op: Op, k: string)
    requires p + [k] <= op.path
    ensures forall j | j in rs && j != k :: Touch(rs[j], p + [j], op).v == rs[j].v
  {
    assert op.path[|p|] == (p + [k])[|p|] == k;
    forall j | j in rs && j != k
      ensures Touch(rs[j], p + [j], op).v == rs[j].v
    {
      assert (p + [j])[|p|] == j;
      assert !(p + [j] <= op.path);
      if Touch(rs[j], p + [j], op).v != rs[j].v {
        Changed(rs[j], p + [j], op);
      }
    }
  }

  /** The later writes that have changed the data are at or below the path of the event. */
  lemma {:induction false} HitsBelow(op: Op, later: seq<Op>)
    ensures forall h | h in Hits(op, later) :: op.path <= later[h].path
    decreases |later|
  {
    if later != [] {
      var n := |later| - 1;
      HitsBelow(op, later[..n]);
      if ReadAfter(op, later) != ReadAfter(op, later[..n]) {
        EvolveEffect(Shares(op.edit, op.path, later[..n]), op.path, later[n], map[]);
      }
    }
  }

  lemma LateStep(op: Op, later: seq<Op>, root: Fields)
    requires later != [] && ReadAfter(op, later) != ReadAfter(op, later[..|later| - 1])
    ensures var n := |later| - 1;
      Apply(ReadAfter(op, later), root) == Apply(later[n], Apply(ReadAfter(op, later[..n]), root))
  {
    var n := |later| - 1;
    EvolveEffect(Shares(op.edit, op.path, later[..n]), op.path, later[n], root);
  }

  /** Reading an event late has the effect of the write and, after it, of those later writes that have changed the
      data. */
  lemma {:induction false} LateRead(op: Op, later: seq<Op>, root: Fields)
    ensures Apply(ReadAfter(op, later), root) == Run(Pick(later, Hits(op, later)), Apply(op, root))
    decreases |later|
  {
    if later == [] {
      FreshReads(op);
    } else {
      var front := later[..|later| - 1];
      var hits := Hits(op, front);
      LateRead(op, front, root);
      PickFront(later, hits, Apply(op, root));
      if ReadAfter(op, later) != ReadAfter(op, front) {
        LateStep(op, later, root);
      } else {
        assert hits + [] == hits;
      }
    }
  }

  lemma PickFront(later: seq<Op>, hits: seq<nat>, root: Fields)
    requires later != [] && Within(hits, |later| - 1)
    ensures var n := |later| - 1;
      && Pick(later, hits) == Pick(later[..n], hits)
      && Run(Pick(later, hits + [n]), root) == Apply(later[n], Run(Pick(later[..n], hits), root))
  {
    var n := |later| - 1;
    var more := Pick(later, hits + [n]);
    assert Pick(later, hits) == Pick(later[..n], hits);
    assert more[..|more| - 1] == Pick(later, hits) && more[|more| - 1] == later[n];
  }

  lemma FreshReads(op: Op)
    ensures ReadAfter(op, []) == op
  {
    if op.edit.Patch? {
      var fs := op.edit.fields;
      assert Now(Fresh(op.edit)).fields == fs;
    }
  }
}
