/** The rules tree and the walk that decides a request. */
module RuleSet {
  import opened Options
  import opened Paths
  import opened Evaluator

  /** Rule texts may be empty; child keys are segments or begin with `$`. */
  datatype RuleNode = RuleNode(read: string, write: string, children: map<string, RuleNode>)

  datatype Access = Read | Write

  function NodeRule(n: RuleNode, op: Access): string {
    if op.Read? then n.read else n.write
  }

  predicate Wildcard(k: string) {
    k != "" && k[0] == '$'
  }

  /** A node on the walk and the variables bound up to it. */
  datatype Visit = Visit(node: RuleNode, vars: Vars)

  predicate Grants(v: Visit, op: Access, auth: AuthCtx) {
    NodeRule(v.node, op) != "" && EvalExpr(NodeRule(v.node, op), Env(auth, v.vars))
  }

  /** The literal child comes first; without one, some wildcard child is taken and its variable bound. */
  ghost predicate StepTo(v: Visit, seg: string, w: Visit) {
    var cs := v.node.children;
    if seg in cs then w == Visit(cs[seg], v.vars)
    else exists k :: k in cs && Wildcard(k) && w == Visit(cs[k], v.vars[k := seg])
  }

  ghost predicate Stuck(v: Visit, seg: string) {
    seg !in v.node.children && forall k | k in v.node.children :: !Wildcard(k)
  }

  /** A walk from the root along `segs`, possibly stopping early. */
  ghost predicate IsWalk(w: seq<Visit>, root: RuleNode, segs: Path) {
    && 0 < |w| <= |segs| + 1
    && w[0] == Visit(root, map[])
    && forall i | 0 <= i < |w| - 1 :: StepTo(w[i], segs[i], w[i + 1])
  }

  /** The walk goes as far as it can. */
  ghost predicate Complete(w: seq<Visit>, segs: Path)
    requires 0 < |w| <= |segs| + 1
  {
    |w| == |segs| + 1 || Stuck(w[|w| - 1], segs[|w| - 1])
  }

  /** Some walk along `segs` ends at a node that grants. */
  ghost predicate Granted(root: RuleNode, segs: Path, op: Access, auth: AuthCtx) {
    exists w :: IsWalk(w, root, segs) && Grants(w[|w| - 1], op, auth)
  }

  /** No node below has two wildcard children. */
  ghost predicate OneWildcard(n: RuleNode) {
    && (forall j, k | j in n.children && k in n.children && Wildcard(j) && Wildcard(k) :: j == k)
    && (forall k | k in n.children :: OneWildcard(n.children[k]))
  }

  class RuleSet {
    var root: Option<RuleNode>

    constructor (root: Option<RuleNode>)
      ensures this.root == root
    {
      this.root := root;
    }

    /** Whether the request is allowed, and the walk that was taken. */
    method Check(path: string, op: Access, auth: AuthCtx) returns (allowed: bool, ghost walk: seq<Visit>)
      ensures root.None? ==> !allowed
      ensures root.Some? ==> IsWalk(walk, root.value, SplitPath(path))
      ensures root.Some? && allowed ==> Grants(walk[|walk| - 1], op, auth)
      ensures root.Some? && !allowed ==>
        Complete(walk, SplitPath(path)) && forall i | 0 <= i < |walk| :: !Grants(walk[i], op, auth)
      ensures root.Some? && OneWildcard(root.value) ==>
        (allowed <==> Granted(root.value, SplitPath(path), op, auth))
    {
      var segs := SplitPath(path);
      if root.None? {
        return false, [];
      }
      allowed, walk := Descend(root.value, segs, op, auth);
      Decided(root.value, segs, op, auth, allowed, walk);
    }

    /** The root rule and the loop over the segments. */
    method Descend(top: RuleNode, segs: Path, op: Access, auth: AuthCtx) returns (allowed: bool, ghost walk: seq<Visit>)
      ensures IsWalk(walk, top, segs)
      ensures allowed ==> Grants(walk[|walk| - 1], op, auth)
      ensures !allowed ==> Complete(walk, segs) && forall i | 0 <= i < |walk| :: !Grants(walk[i], op, auth)
    {
      var node := top;
      var vars: Vars := map[];
      walk := [Visit(node, vars)];
      var rule := NodeRule(node, op);
      if rule != "" {
        var ok := EvalText(rule, Env(auth, vars));
        if ok {
          return true, walk;
        }
      }
      var i := 0;
      while i < |segs|
        invariant 0 <= i <= |segs| && |walk| == i + 1
        invariant IsWalk(walk, top, segs) && walk[i] == Visit(node, vars)
        invariant forall j | 0 <= j <= i :: !Grants(walk[j], op, auth)
      {
        var seg := segs[i];
        if seg in node.children {
          node := node.children[seg];
        } else {
          var wild := set k | k in node.children && Wildcard(k);
          if wild == {} {
            assert Stuck(walk[i], seg) by {
              assert forall k | k in node.children :: Wildcard(k) ==> k in wild;
            }
            return false, walk;
          }
          var k :| k in wild;
          vars := vars[k := seg];
          node := node.children[k];
        }
        WalkOn(walk, top, segs, Visit(node, vars));
        walk := walk + [Visit(node, vars)];
        i := i + 1;
        rule := NodeRule(node, op);
        if rule != "" {
          var ok := EvalText(rule, Env(auth, vars));
          if ok {
            return true, walk;
          }
        }
      }
      allowed := false;
    }
  }

  lemma WalkOn(w: seq<Visit>, root: RuleNode, segs: Path, v: Visit)
    requires IsWalk(w, root, segs) && |w| <= |segs| && StepTo(w[|w| - 1], segs[|w| - 1], v)
    ensures IsWalk(w + [v], root, segs)
  {
  }

  // ----- what the walk decides -----

  lemma StepUnique(v: Visit, seg: string, a: Visit, b: Visit)
    requires OneWildcard(v.node) && StepTo(v, seg, a) && StepTo(v, seg, b)
    ensures a == b && OneWildcard(a.node)
  {
  }

  /** Without two wildcards at a node, any two walks agree as far as both go. */
  lemma {:induction false} WalksAgree(root: RuleNode, segs: Path, v: seq<Visit>, w: seq<Visit>, i: nat)
    requires OneWildcard(root) && IsWalk(v, root, segs) && IsWalk(w, root, segs)
    requires i < |v| && i < |w|
    ensures v[i] == w[i] && OneWildcard(v[i].node)
  {
    if i > 0 {
      WalksAgree(root, segs, v, w, i - 1);
      assert StepTo(v[i - 1], segs[i - 1], v[i]) && StepTo(w[i - 1], segs[i - 1], w[i]);
      StepUnique(v[i - 1], segs[i - 1], v[i], w[i]);
    }
  }

  lemma NotPastComplete(root: RuleNode, segs: Path, v: seq<Visit>, w: seq<Visit>)
    requires OneWildcard(root) && IsWalk(v, root, segs) && IsWalk(w, root, segs) && Complete(w, segs)
    ensures |v| <= |w|
  {
    if |v| > |w| {
      var n := |w| - 1;
      assert StepTo(v[n], segs[n], v[n + 1]);
      WalksAgree(root, segs, v, w, n);
    }
  }

  lemma NoOtherGrant(root: RuleNode, segs: Path, op: Access, auth: AuthCtx, walk: seq<Visit>, v: seq<Visit>)
    requires OneWildcard(root) && IsWalk(walk, root, segs) && Complete(walk, segs)
    requires forall i | 0 <= i < |walk| :: !Grants(walk[i], op, auth)
    requires IsWalk(v, root, segs)
    ensures !Grants(v[|v| - 1], op, auth)
  {
    NotPastComplete(root, segs, v, walk);
    WalksAgree(root, segs, v, walk, |v| - 1);
  }

  /** The answer of Check: whether some node on the walk grants. */
  lemma CheckDecides(root: RuleNode, segs: Path, op: Access, auth: AuthCtx, allowed: bool, walk: seq<Visit>)
    requires OneWildcard(root) && IsWalk(walk, root, segs)
    requires allowed ==> Grants(walk[|walk| - 1], op, auth)
    requires !allowed ==> Complete(walk, segs) && forall i | 0 <= i < |walk| :: !Grants(walk[i], op, auth)
    ensures allowed <==> Granted(root, segs, op, auth)
  {
    if !allowed {
      forall v | IsWalk(v, root, segs)
        ensures !Grants(v[|v| - 1], op, auth)
      {
        NoOtherGrant(root, segs, op, auth, walk, v);
      }
    }
  }

  lemma Decided(root: RuleNode, segs: Path, op: Access, auth: AuthCtx, allowed: bool, walk: seq<Visit>)
    requires IsWalk(walk, root, segs)
    requires allowed ==> Grants(walk[|walk| - 1], op, auth)
    requires !allowed ==> Complete(walk, segs) && forall i | 0 <= i < |walk| :: !Grants(walk[i], op, auth)
    ensures OneWildcard(root) ==> (allowed <==> Granted(root, segs, op, auth))
  {
    if OneWildcard(root) {
      CheckDecides(root, segs, op, auth, allowed, walk);
    }
  }

  // ----- the answer, segment by segment -----

  /** A grant is to be had from `v` on along `segs`. */
  ghost predicate Reaches(v: Visit, segs: Path, op: Access, auth: AuthCtx)
    decreases |segs|
  {
    Grants(v, op, auth) || (segs != [] && exists w :: StepTo(v, segs[0], w) && Reaches(w, segs[1..], op, auth))
  }

  /** A walk from any visit on. */
  ghost predicate WalkFrom(w: seq<Visit>, v: Visit, segs: Path) {
    && 0 < |w| <= |segs| + 1 && w[0] == v
    && forall i | 0 <= i < |w| - 1 :: StepTo(w[i], segs[i], w[i + 1])
  }

  lemma {:induction false} WalkReaches(w: seq<Visit>, v: Visit, segs: Path, op: Access, auth: AuthCtx)
    requires WalkFrom(w, v, segs) && Grants(w[|w| - 1], op, auth)
    ensures Reaches(v, segs, op, auth)
    decreases |segs|
  {
    if |w| > 1 {
      assert StepTo(w[0], segs[0], w[1]);
      var more := w[1..];
      forall i | 0 <= i < |more| - 1
        ensures StepTo(more[i], segs[1..][i], more[i + 1])
      {
        assert StepTo(w[i + 1], segs[i + 1], w[i + 2]);
      }
      WalkReaches(w[1..], w[1], segs[1..], op, auth);
    }
  }

  lemma {:induction false} ReachesWalk(v: Visit, segs: Path, op: Access, auth: AuthCtx) returns (w: seq<Visit>)
    requires Reaches(v, segs, op, auth)
    ensures WalkFrom(w, v, segs) && Grants(w[|w| - 1], op, auth)
    decreases |segs|
  {
    w := [v];
    if !Grants(v, op, auth) {
      var u :| StepTo(v, segs[0], u) && Reaches(u, segs[1..], op, auth);
      var more := ReachesWalk(u, segs[1..], op, auth);
      w := [v] + more;
      assert forall i | 0 <= i < |more| - 1 :: StepTo(more[i], segs[1..][i], more[i + 1]);
    }
  }

  lemma GrantedReaches(root: RuleNode, segs: Path, op: Access, auth: AuthCtx)
    ensures Granted(root, segs, op, auth) <==> Reaches(Visit(root, map[]), segs, op, auth)
  {
    if Granted(root, segs, op, auth) {
      var w :| IsWalk(w, root, segs) && Grants(w[|w| - 1], op, auth);
      WalkReaches(w, Visit(root, map[]), segs, op, auth);
    }
    if Reaches(Visit(root, map[]), segs, op, auth) {
      var w := ReachesWalk(Visit(root, map[]), segs, op, auth);
      assert IsWalk(w, root, segs);
    }
  }

  // ----- what an answer depends on -----

  /** The two trees have the same children and the same read rules. */
  ghost predicate SameReads(m: RuleNode, n: RuleNode) {
    m.read == n.read && m.children.Keys == n.children.Keys
    && forall k | k in m.children :: SameReads(m.children[k], n.children[k])
  }

  /** The same children and the same write rules. */
  ghost predicate SameWrites(m: RuleNode, n: RuleNode) {
    m.write == n.write && m.children.Keys == n.children.Keys
    && forall k | k in m.children :: SameWrites(m.children[k], n.children[k])
  }

  lemma {:induction false} ReadsAlike(m: RuleNode, n: RuleNode, vars: Vars, segs: Path, auth: AuthCtx)
    requires SameReads(m, n) && Reaches(Visit(m, vars), segs, Read, auth)
    ensures Reaches(Visit(n, vars), segs, Read, auth)
    decreases |segs|
  {
    if !Grants(Visit(m, vars), Read, auth) {
      var w :| StepTo(Visit(m, vars), segs[0], w) && Reaches(w, segs[1..], Read, auth);
      var k :| k in m.children && w.node == m.children[k] &&
        StepTo(Visit(n, vars), segs[0], Visit(n.children[k], w.vars));
      ReadsAlike(w.node, n.children[k], w.vars, segs[1..], auth);
    }
  }

  lemma {:induction false} WritesAlike(m: RuleNode, n: RuleNode, vars: Vars, segs: Path, auth: AuthCtx)
    requires SameWrites(m, n) && Reaches(Visit(m, vars), segs, Write, auth)
    ensures Reaches(Visit(n, vars), segs, Write, auth)
    decreases |segs|
  {
    if !Grants(Visit(m, vars), Write, auth) {
      var w :| StepTo(Visit(m, vars), segs[0], w) && Reaches(w, segs[1..], Write, auth);
      var k :| k in m.children && w.node == m.children[k] &&
        StepTo(Visit(n, vars), segs[0], Visit(n.children[k], w.vars));
      WritesAlike(w.node, n.children[k], w.vars, segs[1..], auth);
    }
  }

  lemma {:induction false} SameReadsBack(m: RuleNode, n: RuleNode)
    requires SameReads(m, n)
    ensures SameReads(n, m)
  {
    forall k | k in m.children ensures SameReads(n.children[k], m.children[k]) {
      SameReadsBack(m.children[k], n.children[k]);
    }
  }

  lemma {:induction false} SameWritesBack(m: RuleNode, n: RuleNode)
    requires SameWrites(m, n)
    ensures SameWrites(n, m)
  {
    forall k | k in m.children ensures SameWrites(n.children[k], m.children[k]) {
      SameWritesBack(m.children[k], n.children[k]);
    }
  }

  /** Who may read depends on the read rules alone. */
  lemma ReadsDecide(m: RuleNode, n: RuleNode, segs: Path, auth: AuthCtx)
    requires SameReads(m, n)
    ensures Granted(m, segs, Read, auth) <==> Granted(n, segs, Read, auth)
  {
    GrantedReaches(m, segs, Read, auth);
    GrantedReaches(n, segs, Read, auth);
    SameReadsBack(m, n);
    if Granted(m, segs, Read, auth) { ReadsAlike(m, n, map[], segs, auth); }
    if Granted(n, segs, Read, auth) { ReadsAlike(n, m, map[], segs, auth); }
  }

  /** Who may write depends on the write rules alone. */
  lemma WritesDecide(m: RuleNode, n: RuleNode, segs: Path, auth: AuthCtx)
    requires SameWrites(m, n)
    ensures Granted(m, segs, Write, auth) <==> Granted(n, segs, Write, auth)
  {
    GrantedReaches(m, segs, Write, auth);
    GrantedReaches(n, segs, Write, auth);
    SameWritesBack(m, n);
    if Granted(m, segs, Write, auth) { WritesAlike(m, n, map[], segs, auth); }
    if Granted(n, segs, Write, auth) { WritesAlike(n, m, map[], segs, auth); }
  }

  /** Along `segs` the two trees have the same texts and the same literal children, up to where one has no literal
      child: from there on they are equal. */
  ghost predicate AlikeAlong(m: RuleNode, n: RuleNode, segs: Path)
    decreases |segs|
  {
    && m.read == n.read && m.write == n.write
    && (segs != [] && segs[0] in m.children ==>
          segs[0] in n.children && AlikeAlong(m.children[segs[0]], n.children[segs[0]], segs[1..]))
    && (segs != [] && segs[0] !in m.children ==> m == n)
  }

  lemma {:induction false} AlongReaches(m: RuleNode, n: RuleNode, vars: Vars, segs: Path, op: Access, auth: AuthCtx)
    requires AlikeAlong(m, n, segs)
    ensures Reaches(Visit(m, vars), segs, op, auth) <==> Reaches(Visit(n, vars), segs, op, auth)
    decreases |segs|
  {
    if segs != [] && segs[0] in m.children {
      AlongReaches(m.children[segs[0]], n.children[segs[0]], vars, segs[1..], op, auth);
      assert StepTo(Visit(m, vars), segs[0], Visit(m.children[segs[0]], vars));
      assert StepTo(Visit(n, vars), segs[0], Visit(n.children[segs[0]], vars));
    }
  }

  /** Literal children come first: wildcard children, or any others, that are added beside the literal ones on the way
      change no answer. */
  lemma LiteralFirst(m: RuleNode, n: RuleNode, segs: Path, op: Access, auth: AuthCtx)
    requires AlikeAlong(m, n, segs)
    ensures Granted(m, segs, op, auth) <==> Granted(n, segs, op, auth)
  {
    GrantedReaches(m, segs, op, auth);
    GrantedReaches(n, segs, op, auth);
    AlongReaches(m, n, map[], segs, op, auth);
  }

  lemma {:induction false} AlikeItself(n: RuleNode, segs: Path)
    ensures AlikeAlong(n, n, segs)
    decreases |segs|
  {
    if segs != [] && segs[0] in n.children { AlikeItself(n.children[segs[0]], segs[1..]); }
  }

  /** In particular, a child that is added under a name that is not the first segment changes no answer at and below a
      literal child. */
  lemma AddedChild(n: RuleNode, k: string, x: RuleNode, segs: Path, op: Access, auth: AuthCtx)
    requires segs != [] && segs[0] in n.children && k != segs[0]
    ensures Granted(n.(children := n.children[k := x]), segs, op, auth) <==> Granted(n, segs, op, auth)
  {
    AlikeItself(n.children[segs[0]], segs[1..]);
    LiteralFirst(n, n.(children := n.children[k := x]), segs, op, auth);
  }

  /** A segment that is no literal child goes to every child whose name begins with `$`, and to no other. */
  lemma WildcardsTake(n: RuleNode, vars: Vars, seg: string, w: Visit)
    requires seg !in n.children
    ensures StepTo(Visit(n, vars), seg, w) <==>
      exists name :: "$" + name in n.children && w == Visit(n.children["$" + name], vars["$" + name := seg])
  {
    if StepTo(Visit(n, vars), seg, w) {
      var k :| k in n.children && Wildcard(k) && w == Visit(n.children[k], vars[k := seg]);
      assert k == "$" + k[1..];
    }
  }

  // ----- what a wildcard is bound to -----

  /** No variable is bound to its own name: a segment spelled like a wildcard takes the child of that name. */
  lemma {:induction false} NotToItself(root: RuleNode, segs: Path, w: seq<Visit>, i: nat)
    requires IsWalk(w, root, segs) && i < |w|
    ensures forall k | k in w[i].vars :: w[i].vars[k] != k
  {
    if i > 0 {
      NotToItself(root, segs, w, i - 1);
      assert StepTo(w[i - 1], segs[i - 1], w[i]);
    }
  }

  /** On every walk, the variable of a wildcard child that is entered is bound to the segment exactly if the segment is
      not the name of that child. */
  lemma BoundToSegment(root: RuleNode, segs: Path, w: seq<Visit>, i: nat) returns (k: string)
    requires IsWalk(w, root, segs) && i + 1 < |w|
    requires segs[i] in w[i].node.children ==> Wildcard(segs[i])
    ensures k in w[i].node.children && Wildcard(k) && w[i + 1].node == w[i].node.children[k]
    ensures segs[i] in w[i].node.children ==> segs[i] == k
    ensures (k in w[i + 1].vars && w[i + 1].vars[k] == segs[i]) <==> segs[i] != k
  {
    NotToItself(root, segs, w, i);
    var v, seg, cs := w[i], segs[i], w[i].node.children;
    assert StepTo(v, seg, w[i + 1]);
    if seg in cs {
      k := seg;
    } else {
      k :| k in cs && Wildcard(k) && w[i + 1] == Visit(cs[k], v.vars[k := seg]);
    }
  }

  /** A grant at a path is a grant at every path below it. */
  lemma GrantCascades(root: RuleNode, segs: Path, more: Path, op: Access, auth: AuthCtx)
    requires Granted(root, segs, op, auth)
    ensures Granted(root, segs + more, op, auth)
  {
    var w :| IsWalk(w, root, segs) && Grants(w[|w| - 1], op, auth);
    assert IsWalk(w, root, segs + more);
  }

  /** Two requests of one user, the second at a path below the first: if the first is allowed, so is the second. */
  lemma CheckCascades(root: RuleNode, segs: Path, more: Path, op: Access, auth: AuthCtx,
                      first: bool, walk: seq<Visit>, second: bool, longer: seq<Visit>)
    requires OneWildcard(root) && IsWalk(walk, root, segs) && IsWalk(longer, root, segs + more)
    requires first && Grants(walk[|walk| - 1], op, auth)
    requires second ==> Grants(longer[|longer| - 1], op, auth)
    requires !second ==> Complete(longer, segs + more) && forall i | 0 <= i < |longer| :: !Grants(longer[i], op, auth)
    ensures second
  {
    GrantCascades(root, segs, more, op, auth);
    CheckDecides(root, segs + more, op, auth, second, longer);
  }
}
