/** How much a stream is told: whether what it is written for a write depends on more than what stands at its path. */
module StreamData {
  import opened Options
  import opened Paths
  import opened JsonTree
  import opened TreeLaws
  import opened Sharing
  import opened Stream
  import opened HubModel

  /** What a stream that is sent the event of the write at once is written. */
  function Told(w: Request): Event<Json> {
    Wire([w], EventOf(w, 0))
  }

  lemma ToldIs(w: Request)
    ensures Told(w) == Event(KindOf(w.edit), EventPath(w.path), Payload(w.edit))
  {
    FreshReads(OpOf(w));
    assert Ops([w][1..]) == [];
  }

  /** Two edits at `p` leave the same at `q`, whatever the content was. */
  ghost predicate SameThere(e: Edit, f: Edit, p: Path, q: Path) {
    forall root: Fields :: Fetch(Apply(Op(p, e), root), q) == Fetch(Apply(Op(p, f), root), q)
  }

  /** Two writes to `text` that leave the same at the path of the stream look the same to it. */
  ghost predicate TellsOnlyOwn(text: string, path: string) {
    forall e, f | SameThere(e, f, SplitPath(text), SplitPath(path)) ::
      Told(Request(text, e)) == Told(Request(text, f))
  }

  // ----- an edit can be told from what it does -----

  lemma LongerThanAll(ks: set<string>) returns (n: nat)
    ensures forall k | k in ks :: |k| < n
  {
    n := 0;
    if ks != {} {
      var x :| x in ks;
      n := LongerThanAll(ks - {x});
      n := if n <= |x| then |x| + 1 else n;
      assert forall k | k in ks :: k == x || k in ks - {x};
    }
  }

  lemma SomeOtherKey(ks: set<string>) returns (k: string)
    ensures k !in ks
  {
    var n := LongerThanAll(ks);
    k := seq(n, _ => 'a');
  }

  /** A put leaves one value, a patch does not. */
  lemma PutIsNoPatch(v: Json, fs: Fields)
    ensures exists m: Fields :: Some(v) != ApplyAt(Patch(fs), [], Some(Obj(m)))
  {
    var k := SomeOtherKey(fs.Keys);
    var none: Fields := map[];
    var one: Fields := map[k := Null];
    var a, b := ApplyAt(Patch(fs), [], Some(Obj(none))), ApplyAt(Patch(fs), [], Some(Obj(one)));
    assert k !in (none + fs) && k in (one + fs);
    assert a != b;
  }

  lemma EffectTellsHere(e: Edit, f: Edit)
    requires forall m: Fields :: ApplyAt(e, [], Some(Obj(m))) == ApplyAt(f, [], Some(Obj(m)))
    ensures e == f
  {
    if e.Put? && f.Patch? {
      PutIsNoPatch(e.value, f.fields);
    } else if e.Patch? && f.Put? {
      PutIsNoPatch(f.value, e.fields);
    } else {
      OneKind(e, f, map[]);
    }
  }

  lemma OneKind(e: Edit, f: Edit, none: Fields)
    requires none == map[] && ApplyAt(e, [], Some(Obj(none))) == ApplyAt(f, [], Some(Obj(none)))
    ensures !(e.Put? && f.Patch?) && !(e.Patch? && f.Put?) ==> e == f
  {
    if e.Patch? && f.Patch? {
      assert none + e.fields == e.fields && none + f.fields == f.fields;
    }
  }

  lemma EffectBelow(e: Edit, f: Edit, r: Path, m: Fields, w: Fields)
    requires r != [] && w == map[r[0] := Obj(m)]
    requires ApplyAt(e, r, Some(Obj(w))) == ApplyAt(f, r, Some(Obj(w)))
    ensures ApplyAt(e, r[1..], Some(Obj(m))) == ApplyAt(f, r[1..], Some(Obj(m)))
  {
    assert Child(Some(Obj(w)), r[0]) == Some(Obj(m));
    WithChildCancel(w, w, r[0], ApplyAt(e, r[1..], Some(Obj(m))), ApplyAt(f, r[1..], Some(Obj(m))));
  }

  /** Two edits that do the same to every object are equal. */
  lemma {:induction false} EffectTells(e: Edit, f: Edit, r: Path)
    requires forall m: Fields :: ApplyAt(e, r, Some(Obj(m))) == ApplyAt(f, r, Some(Obj(m)))
    ensures e == f
    decreases |r|
  {
    if r == [] {
      EffectTellsHere(e, f);
    } else {
      forall m: Fields
        ensures ApplyAt(e, r[1..], Some(Obj(m))) == ApplyAt(f, r[1..], Some(Obj(m)))
      {
        EffectBelow(e, f, r, m, map[r[0] := Obj(m)]);
      }
      EffectTells(e, f, r[1..]);
    }
  }

  /** Some content holds the object at `q`. */
  lemma HoldsObject(q: Path, m: Fields) returns (root: Fields)
    ensures Fetch(root, q) == Some(Obj(m))
  {
    var op := Op(q, Put(Obj(m)));
    root := Apply(op, map[]);
    SubtreeProjection(op, map[], q);
    ProjectCases(Put(Obj(m)), q, q, Fetch(map[], q));
  }

  lemma SameBelow(e: Edit, f: Edit, p: Path, q: Path, m: Fields)
    requires SameThere(e, f, p, q) && q <= p && p != []
    ensures ApplyAt(e, p[|q|..], Some(Obj(m))) == ApplyAt(f, p[|q|..], Some(Obj(m)))
  {
    var root := HoldsObject(q, m);
    assert Fetch(Apply(Op(p, e), root), q) == Fetch(Apply(Op(p, f), root), q);
    SubtreeProjection(Op(p, e), root, q);
    SubtreeProjection(Op(p, f), root, q);
    ProjectCases(e, p, q, Some(Obj(m)));
    ProjectCases(f, p, q, Some(Obj(m)));
  }

  /** Two puts that leave no value at a path below theirs. */
  lemma LeavesNothingBelow(p: Path, q: Path)
    requires p < q
    ensures SameThere(Put(Null), Put(Bool(true)), p, q)
  {
    forall root: Fields
      ensures Fetch(Apply(Op(p, Put(Null)), root), q) == Fetch(Apply(Op(p, Put(Bool(true))), root), q)
    {
      var r := q[|p|..];
      SubtreeProjection(Op(p, Put(Null)), root, q);
      SubtreeProjection(Op(p, Put(Bool(true))), root, q);
      ProjectCases(Put(Null), p, q, Fetch(root, q));
      ProjectCases(Put(Bool(true)), p, q, Fetch(root, q));
      LookupNothing(r[1..]);
      assert Child(Some(Null), r[0]) == Child(Some(Bool(true)), r[0]) == None;
    }
  }

  /** Two puts of no object at the root both leave it empty. */
  lemma LeavesNothing(q: Path)
    ensures SameThere(Put(Null), Put(Bool(true)), [], q)
  {
  }

  /** What a stream is written for a write that it is told of depends on what stands at its path, and on nothing else,
      exactly if the write is at or below that path and not to the root.  A put or patch above the path tells the
      stream of everything that is put, and at the root a value that is no object is told though it is not kept. */
  lemma WrittenExact(text: string, path: string)
    requires Sent(path, Request(text, Delete))
    ensures TellsOnlyOwn(text, path) <==> SplitPath(text) != [] && SplitPath(path) <= SplitPath(text)
  {
    var p, q := SplitPath(text), SplitPath(path);
    MatchesSegments(path, Request(text, Delete));
    var e, f := Put(Null), Put(Bool(true));
    ToldIs(Request(text, e));
    ToldIs(Request(text, f));
    if p == [] {
      LeavesNothing(q);
      assert SameThere(e, f, p, q);
    } else if !(q <= p) {
      LeavesNothingBelow(p, q);
      assert SameThere(e, f, p, q);
    } else {
      forall e, f | SameThere(e, f, p, q)
        ensures Told(Request(text, e)) == Told(Request(text, f))
      {
        forall m: Fields
          ensures ApplyAt(e, p[|q|..], Some(Obj(m))) == ApplyAt(f, p[|q|..], Some(Obj(m)))
        {
          SameBelow(e, f, p, q, m);
        }
        EffectTells(e, f, p[|q|..]);
      }
    }
  }
}
