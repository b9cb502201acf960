/** Laws of the tree edits: projection, framing, commutation and replay. */
module TreeLaws {
  import opened Options
  import opened JsonTree
  import opened Paths

  // ----- one level of the tree -----

  lemma DeleteNothing(p: Path)
    ensures ApplyAt(Delete, p, None) == None
  {
  }

  /** The members after an edit strictly below a node, for every kind of edit and of node. */
  lemma FieldsAfter(e: Edit, p: Path, v: Option<Json>)
    requires p != []
    ensures FieldsOf(ApplyAt(e, p, v)) == WithChild(FieldsOf(v), p[0], ApplyAt(e, p[1..], Child(v, p[0])))
  {
    if e.Delete? && !(v.Some? && v.value.Obj?) {
      DeleteNothing(p[1..]);
    }
  }

  lemma WithChildCancel(m: Fields, n: Fields, k: string, c: Option<Json>, d: Option<Json>)
    ensures WithChild(m, k, c) == WithChild(n, k, d) <==> c == d && m - {k} == n - {k}
  {
    var a, b := WithChild(m, k, c), WithChild(n, k, d);
    assert (k in a <==> c.Some?) && (k in b <==> d.Some?);
    assert a - {k} == m - {k} && b - {k} == n - {k};
    if c == d && m - {k} == n - {k} {
      forall j
        ensures j in a <==> j in b
        ensures j in a ==> a[j] == b[j]
      {
        assert j != k ==> (j in a <==> j in m - {k}) && (j in b <==> j in n - {k});
        assert j != k && j in a ==> a[j] == (m - {k})[j] && b[j] == (n - {k})[j];
      }
    }
  }

  lemma ChildAfter(e: Edit, p: Path, v: Option<Json>, k: string)
    requires p != []
    ensures Child(ApplyAt(e, p, v), k) == if k == p[0] then ApplyAt(e, p[1..], Child(v, k)) else Child(v, k)
  {
    FieldsAfter(e, p, v);
  }

  lemma {:induction false} LookupAppend(v: Option<Json>, p: Path, q: Path)
    ensures Lookup(v, p + q) == Lookup(Lookup(v, p), q)
    decreases |p|
  {
    if p == [] {
      assert p + q == q;
    } else {
      assert (p + q)[1..] == p[1..] + q;
      LookupAppend(Child(v, p[0]), p[1..], q);
    }
  }

  lemma {:induction false} LookupNothing(p: Path)
    ensures Lookup(None, p) == None
    decreases |p|
  {
    if p != [] {
      LookupNothing(p[1..]);
    }
  }

  // ----- projection and framing -----

  lemma {:induction false} ProjectAt(e: Edit, p: Path, q: Path, v: Option<Json>)
    ensures Lookup(ApplyAt(e, p, v), q) == Project(e, p, q, Lookup(v, q))
    decreases |q|
  {
    if q == [] {
    } else if p == [] {
      if e.Patch? && q[0] !in e.fields {
        assert Child(ApplyAt(e, p, v), q[0]) == Child(v, q[0]);
      } else if e.Delete? {
        LookupNothing(q[1..]);
      }
    } else {
      ChildAfter(e, p, v, q[0]);
      ProjectAt(e, p[1..], q[1..], Child(v, q[0]));
    }
  }

  /** What is read at `q` after an operation is a function of the operation and of what was read at `q`
      before.  At the root the result is an object again. */
  lemma SubtreeProjection(op: Op, root: Fields, q: Path)
    ensures q != [] ==> Fetch(Apply(op, root), q) == Project(op.edit, op.path, q, Fetch(root, q))
    ensures q == [] ==> Fetch(Apply(op, root), q) == Some(Obj(FieldsOf(ApplyAt(op.edit, op.path, Fetch(root, q)))))
  {
    ProjectAt(op.edit, op.path, q, Some(Obj(root)));
  }

  /** The projection in terms of how the two paths lie to each other. */
  lemma {:induction false} ProjectCases(e: Edit, p: Path, q: Path, x: Option<Json>)
    ensures q <= p ==> Project(e, p, q, x) == ApplyAt(e, p[|q|..], x)
    ensures p < q && e.Put? ==> Project(e, p, q, x) == Lookup(Some(e.value), q[|p|..])
    ensures p < q && e.Patch? ==>
      Project(e, p, q, x) == if q[|p|] in e.fields then Lookup(Some(e.fields[q[|p|]]), q[|p| + 1..]) else x
    ensures p < q && e.Delete? ==> Project(e, p, q, x) == None
    ensures !Comparable(p, q) ==> Project(e, p, q, x) == x
    decreases |q|
  {
    if q != [] && p != [] && p[0] == q[0] {
      ProjectCases(e, p[1..], q[1..], x);
      OneLevelDown(p, q);
      OneLevelDown(q, p);
    }
  }

  /** How two paths lie to each other, and how what is left of them does behind a common first segment. */
  lemma OneLevelDown(p: Path, q: Path)
    requires q != [] && p != [] && p[0] == q[0]
    ensures p <= q <==> p[1..] <= q[1..]
    ensures p <= q ==> q[|p|..] == q[1..][|p[1..]|..]
    ensures p < q ==> q[|p| + 1..] == q[1..][|p[1..]| + 1..] && q[|p|] == q[1..][|p[1..]|]
  {
    assert p == [p[0]] + p[1..] && q == [q[0]] + q[1..];
  }

  /** An operation leaves every path alone that is neither above nor below its own. */
  lemma Frame(op: Op, root: Fields, q: Path)
    requires !Comparable(op.path, q)
    ensures Fetch(Apply(op, root), q) == Fetch(root, q)
  {
    SubtreeProjection(op, root, q);
    ProjectCases(op.edit, op.path, q, Fetch(root, q));
  }

  /** Two trees that agree at `q` still agree at `q` after the same operation. */
  lemma AgreementKept(op: Op, s: Fields, t: Fields, q: Path)
    requires Fetch(s, q) == Fetch(t, q)
    ensures Fetch(Apply(op, s), q) == Fetch(Apply(op, t), q)
  {
    SubtreeProjection(op, s, q);
    SubtreeProjection(op, t, q);
  }

  // ----- commutation -----

  lemma WithChildTwice(m: Fields, k: string, c: Option<Json>, d: Option<Json>)
    ensures WithChild(WithChild(m, k, c), k, d) == WithChild(m, k, d)
  {
    assert WithChild(m, k, c) - {k} == m - {k};
    WithChildCancel(WithChild(m, k, c), m, k, d, d);
  }

  lemma WithChildSwap(m: Fields, j: string, c: Option<Json>, k: string, d: Option<Json>)
    requires j != k
    ensures WithChild(WithChild(m, j, c), k, d) == WithChild(WithChild(m, k, d), j, c)
  {
    var a, b := WithChild(WithChild(m, j, c), k, d), WithChild(WithChild(m, k, d), j, c);
    assert forall i :: (i in a <==> i in b) && (i in a ==> a[i] == b[i]);
  }

  lemma {:induction false} CommuteAt(e: Edit, p: Path, f: Edit, r: Path, v: Option<Json>)
    requires !Comparable(p, r)
    ensures ApplyAt(e, p, ApplyAt(f, r, v)) == ApplyAt(f, r, ApplyAt(e, p, v))
    decreases |p|
  {
    var ve, vf := ApplyAt(e, p, v), ApplyAt(f, r, v);
    var m, j, k := FieldsOf(v), p[0], r[0];
    FieldsAfter(e, p, v);
    FieldsAfter(f, r, v);
    if j == k {
      assert p == [j] + p[1..] && r == [k] + r[1..];
      var c := Child(v, j);
      CommuteAt(e, p[1..], f, r[1..], c);
      ChildAfter(e, p, v, j);
      ChildAfter(f, r, v, j);
      WithChildTwice(m, j, ApplyAt(e, p[1..], c), ApplyAt(f, r[1..], ApplyAt(e, p[1..], c)));
      WithChildTwice(m, j, ApplyAt(f, r[1..], c), ApplyAt(e, p[1..], ApplyAt(f, r[1..], c)));
      FieldsAfter(e, p, vf);
      FieldsAfter(f, r, ve);
    } else {
      ChildAfter(f, r, v, j);
      ChildAfter(e, p, v, k);
      WithChildSwap(m, j, ApplyAt(e, p[1..], Child(v, j)), k, ApplyAt(f, r[1..], Child(v, k)));
      FieldsAfter(e, p, vf);
      FieldsAfter(f, r, ve);
    }
  }

  /** Operations at incomparable paths commute, whatever stands at their common ancestors. */
  lemma Commute(a: Op, b: Op, root: Fields)
    requires !Comparable(a.path, b.path)
    ensures Apply(a, Apply(b, root)) == Apply(b, Apply(a, root))
  {
    CommuteAt(a.edit, a.path, b.edit, b.path, Some(Obj(root)));
  }

  // ----- replay -----

  lemma {:induction false} IdempotentAt(e: Edit, p: Path, v: Option<Json>)
    ensures ApplyAt(e, p, ApplyAt(e, p, v)) == ApplyAt(e, p, v)
    decreases |p|
  {
    if p != [] {
      var c := ApplyAt(e, p[1..], Child(v, p[0]));
      IdempotentAt(e, p[1..], Child(v, p[0]));
      ChildAfter(e, p, v, p[0]);
      WithChildTwice(FieldsOf(v), p[0], c, c);
    } else if e.Patch? {
      assert FieldsOf(v) + e.fields + e.fields == FieldsOf(v) + e.fields;
    }
  }

  lemma Idempotent(op: Op, root: Fields)
    ensures Apply(op, Apply(op, root)) == Apply(op, root)
  {
    IdempotentAt(op.edit, op.path, Some(Obj(root)));
  }

  /** What two nodes that `e` makes equal have in common: all but what `e` overwrites. */
  lemma KernelBelow(e: Edit, p: Path, v: Option<Json>, w: Option<Json>)
    requires p != [] && ApplyAt(e, p, v) == ApplyAt(e, p, w)
    ensures FieldsOf(v) - {p[0]} == FieldsOf(w) - {p[0]}
    ensures ApplyAt(e, p[1..], Child(v, p[0])) == ApplyAt(e, p[1..], Child(w, p[0]))
  {
    FieldsAfter(e, p, v);
    FieldsAfter(e, p, w);
    WithChildCancel(FieldsOf(v), FieldsOf(w), p[0],
                    ApplyAt(e, p[1..], Child(v, p[0])), ApplyAt(e, p[1..], Child(w, p[0])));
  }

  /** The converse, for nodes that an earlier edit cannot leave one an object and the other not. */
  lemma KernelRebuilt(e: Edit, p: Path, v: Option<Json>, w: Option<Json>)
    requires p != []
    requires FieldsOf(v) - {p[0]} == FieldsOf(w) - {p[0]}
    requires ApplyAt(e, p[1..], Child(v, p[0])) == ApplyAt(e, p[1..], Child(w, p[0]))
    requires !e.Delete? || v == w || (v.Some? && v.value.Obj? && w.Some? && w.value.Obj?)
    ensures ApplyAt(e, p, v) == ApplyAt(e, p, w)
  {
    WithChildCancel(FieldsOf(v), FieldsOf(w), p[0],
                    ApplyAt(e, p[1..], Child(v, p[0])), ApplyAt(e, p[1..], Child(w, p[0])));
  }

  lemma CongruentTop(e: Edit, f: Edit, r: Path, v: Option<Json>, w: Option<Json>)
    requires ApplyAt(e, [], v) == ApplyAt(e, [], w)
    ensures ApplyAt(e, [], ApplyAt(f, r, v)) == ApplyAt(e, [], ApplyAt(f, r, w))
  {
    if e.Patch? {
      var fs := e.fields;
      assert FieldsOf(v) + fs == FieldsOf(w) + fs;
      forall k | k !in fs
        ensures Child(ApplyAt(f, r, v), k) == Child(ApplyAt(f, r, w), k)
      {
        OutsidePatch(fs, v, w, k);
        if r != [] {
          ChildAfter(f, r, v, k);
          ChildAfter(f, r, w, k);
        }
      }
      SamePatched(fs, ApplyAt(f, r, v), ApplyAt(f, r, w));
    }
  }

  lemma OutsidePatch(fs: Fields, v: Option<Json>, w: Option<Json>, k: string)
    requires FieldsOf(v) + fs == FieldsOf(w) + fs && k !in fs
    ensures Child(v, k) == Child(w, k)
  {
    assert k in FieldsOf(v) <==> k in FieldsOf(v) + fs;
    assert k in FieldsOf(w) <==> k in FieldsOf(w) + fs;
  }

  lemma SamePatched(fs: Fields, v: Option<Json>, w: Option<Json>)
    requires forall k | k !in fs :: Child(v, k) == Child(w, k)
    ensures FieldsOf(v) + fs == FieldsOf(w) + fs
  {
    forall k
      ensures k in FieldsOf(v) + fs <==> k in FieldsOf(w) + fs
      ensures k in FieldsOf(v) + fs ==> (FieldsOf(v) + fs)[k] == (FieldsOf(w) + fs)[k]
    {
      assert k !in fs ==> Child(v, k) == Child(w, k);
    }
  }

  /** Nodes that `e` makes equal are still made equal by `e` after any other edit `f` of both. */
  lemma {:induction false} CongruentAt(e: Edit, p: Path, f: Edit, r: Path, v: Option<Json>, w: Option<Json>)
    requires ApplyAt(e, p, v) == ApplyAt(e, p, w)
    ensures ApplyAt(e, p, ApplyAt(f, r, v)) == ApplyAt(e, p, ApplyAt(f, r, w))
    decreases |p|
  {
    if p == [] {
      CongruentTop(e, f, r, v, w);
    } else if r == [] && !f.Patch? {
    } else {
      var k := p[0];
      var v', w' := ApplyAt(f, r, v), ApplyAt(f, r, w);
      KernelBelow(e, p, v, w);
      if r == [] {
        forall j ensures j != k ==> Child(v', j) == Child(w', j) {
          assert j != k ==> (j in FieldsOf(v) <==> j in FieldsOf(v) - {k});
          assert j != k ==> (j in FieldsOf(w) <==> j in FieldsOf(w) - {k});
        }
      } else {
        CongruentSiblings(k, f, r, v, w);
        ChildAfter(f, r, v, k);
        ChildAfter(f, r, w, k);
        if r[0] == k {
          CongruentAt(e, p[1..], f, r[1..], Child(v, k), Child(w, k));
        }
      }
      SameSiblings(k, v', w');
      KernelRebuilt(e, p, v', w');
    }
  }

  lemma CongruentSiblings(k: string, f: Edit, r: Path, v: Option<Json>, w: Option<Json>)
    requires r != [] && FieldsOf(v) - {k} == FieldsOf(w) - {k}
    ensures forall j | j != k :: Child(ApplyAt(f, r, v), j) == Child(ApplyAt(f, r, w), j)
  {
    forall j | j != k
      ensures Child(ApplyAt(f, r, v), j) == Child(ApplyAt(f, r, w), j)
    {
      assert j in FieldsOf(v) <==> j in FieldsOf(v) - {k};
      assert j in FieldsOf(w) <==> j in FieldsOf(w) - {k};
      assert Child(v, j) == Child(w, j);
      ChildAfter(f, r, v, j);
      ChildAfter(f, r, w, j);
    }
  }

  lemma SameSiblings(k: string, v: Option<Json>, w: Option<Json>)
    requires forall j | j != k :: Child(v, j) == Child(w, j)
    ensures FieldsOf(v) - {k} == FieldsOf(w) - {k}
  {
    forall j
      ensures j in FieldsOf(v) - {k} <==> j in FieldsOf(w) - {k}
      ensures j in FieldsOf(v) - {k} ==> (FieldsOf(v) - {k})[j] == (FieldsOf(w) - {k})[j]
    {
      assert j != k ==> Child(v, j) == Child(w, j);
    }
  }

  lemma Congruent(a: Op, b: Op, s: Fields, t: Fields)
    requires Apply(a, s) == Apply(a, t)
    ensures Apply(a, Apply(b, s)) == Apply(a, Apply(b, t))
  {
    var v, w := Some(Obj(s)), Some(Obj(t));
    CongruentAt(a.edit, a.path, b.edit, b.path, v, w);
    var v', w' := ApplyAt(b.edit, b.path, v), ApplyAt(b.edit, b.path, w);
    RootForm(a, v');
    RootForm(a, w');
  }

  /** Applying an operation to a node or to the object of its members has the same members. */
  lemma RootForm(a: Op, v: Option<Json>)
    ensures FieldsOf(ApplyAt(a.edit, a.path, v)) == FieldsOf(ApplyAt(a.edit, a.path, Some(Obj(FieldsOf(v)))))
  {
    if a.path != [] {
      FieldsAfter(a.edit, a.path, v);
      FieldsAfter(a.edit, a.path, Some(Obj(FieldsOf(v))));
    }
  }

  lemma {:induction false} CongruentRun(a: Op, ops: seq<Op>, s: Fields, t: Fields)
    requires Apply(a, s) == Apply(a, t)
    ensures Apply(a, Run(ops, s)) == Apply(a, Run(ops, t))
    decreases |ops|
  {
    if ops != [] {
      var front := ops[..|ops| - 1];
      CongruentRun(a, front, s, t);
      Congruent(a, ops[|ops| - 1], Run(front, s), Run(front, t));
    }
  }

  /** The replay law: running a history again on its own result changes nothing. */
  lemma {:induction false} Replay(ops: seq<Op>, root: Fields)
    ensures Run(ops, Run(ops, root)) == Run(ops, root)
    decreases |ops|
  {
    if ops != [] {
      var front, last := ops[..|ops| - 1], ops[|ops| - 1];
      var u := Run(front, root);
      Replay(front, root);
      Idempotent(last, u);
      CongruentRun(last, front, Apply(last, u), u);
    }
  }

  lemma {:induction false} RunAppend(a: seq<Op>, b: seq<Op>, root: Fields)
    ensures Run(a + b, root) == Run(b, Run(a, root))
    decreases |b|
  {
    if b == [] {
      assert a + b == a;
    } else {
      assert (a + b)[..|a + b| - 1] == a + b[..|b| - 1];
      RunAppend(a, b[..|b| - 1], root);
    }
  }
}
