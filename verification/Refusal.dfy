/** Which texts refuse every user and every binding: it is enough to try finitely many, made of the strings in the
    text and a few others. */
module Refusal {
  import T = Tokenizer
  import opened Evaluator
  import opened Grammar
  import opened Reading

  /** The strings in quotes. */
  function Literals(e: Expr): seq<string> {
    match e
    case StrLit(s) => [s]
    case Paren(x) => Literals(x)
    case Open(x) => Literals(x)
    case Not(x) => Literals(x)
    case Cmp(_, l, r) => Literals(l) + Literals(r)
    case And(l, r) => Literals(l) + Literals(r)
    case Or(l, r) => Literals(l) + Literals(r)
    case _ => []
  }

  /** The names that begin a chain. */
  function Roots(e: Expr): seq<string> {
    match e
    case Chain(root, _) => [root]
    case Paren(x) => Roots(x)
    case Open(x) => Roots(x)
    case Not(x) => Roots(x)
    case Cmp(_, l, r) => Roots(l) + Roots(r)
    case And(l, r) => Roots(l) + Roots(r)
    case Or(l, r) => Roots(l) + Roots(r)
    case _ => []
  }

  /** The strings that matter as such. */
  function Base(e: Expr): set<string> {
    (set s | s in Literals(e)) + {"", "__auth__"}
  }

  function Longest(ss: seq<string>): (n: nat)
    ensures forall s | s in ss :: |s| <= n
  {
    if ss == [] then 8
    else
      var n := Longest(ss[1..]);
      if |ss[0]| > n then |ss[0]| else n
  }

  /** Strings that are longer than every one that matters, each of its own length. */
  function Fresh(e: Expr, i: nat): string {
    seq(Longest(Literals(e)) + 9 + i, _ => 'x')
  }

  /** What a user id, an email and the bound segments are tried with. */
  function Pool(e: Expr): set<string> {
    Base(e) + set i: nat | i < |Roots(e)| + 2 :: Fresh(e, i)
  }

  function AllVars(names: seq<string>, pool: set<string>): set<Vars> {
    if names == [] then {map[]}
    else
      var rest := AllVars(names[1..], pool);
      rest + set m, s | m in rest && s in pool :: m[names[0] := s]
  }

  function Probes(e: Expr): set<Env> {
    set authed, uid, email, vars |
      authed in {true, false} && uid in Pool(e) && email in Pool(e) && vars in AllVars(Roots(e), Pool(e)) ::
      Env(AuthCtx(uid, email, authed), vars)
  }

  predicate Refuses(e: Expr, env: Env) {
    !Truthy(Denote(e, env))
  }

  predicate RefusesProbes(e: Expr) {
    forall env | env in Probes(e) :: Refuses(e, env)
  }

  // ----- renaming strings -----

  function IndexOf(ss: seq<string>, s: string): (i: nat)
    requires s in ss
    ensures i < |ss| && ss[i] == s
  {
    if ss[0] == s then 0 else 1 + IndexOf(ss[1..], s)
  }

  /** The strings of an environment that the tree can get at. */
  function Used(e: Expr, env: Env): (ss: seq<string>)
    ensures |ss| == |Roots(e)| + 2
  {
    [env.auth.uid, env.auth.email] +
    seq(|Roots(e)|, i requires 0 <= i < |Roots(e)| => if Roots(e)[i] in env.vars then env.vars[Roots(e)[i]] else "")
  }

  /** Strings that matter stay; each other one becomes a fresh one of its own. */
  function Rename(e: Expr, env: Env, s: string): string {
    if s in Base(e) || s !in Used(e, env) then s else Fresh(e, IndexOf(Used(e, env), s))
  }

  function RenameValue(e: Expr, env: Env, v: Value): Value {
    if v.VStr? then VStr(Rename(e, env, v.s)) else v
  }

  predicate Reachable(e: Expr, env: Env, v: Value) {
    v.VStr? ==> v.s in Base(e) || v.s in Used(e, env)
  }

  function Probe(e: Expr, env: Env): Env {
    Env(AuthCtx(Rename(e, env, env.auth.uid), Rename(e, env, env.auth.email), env.auth.authed),
        map x | x in Roots(e) && x in env.vars :: Rename(e, env, env.vars[x]))
  }

  lemma FreshOutside(e: Expr, i: nat)
    ensures Fresh(e, i) !in Base(e)
  {
    assert |Fresh(e, i)| == Longest(Literals(e)) + 9 + i;
  }

  lemma RenameInjective(e: Expr, env: Env, s: string, t: string)
    requires Reachable(e, env, VStr(s)) && Reachable(e, env, VStr(t))
    ensures Rename(e, env, s) == Rename(e, env, t) <==> s == t
  {
    if s !in Base(e) {
      FreshOutside(e, IndexOf(Used(e, env), s));
      assert |Fresh(e, IndexOf(Used(e, env), s))| == Longest(Literals(e)) + 9 + IndexOf(Used(e, env), s);
    }
    if t !in Base(e) {
      FreshOutside(e, IndexOf(Used(e, env), t));
      assert |Fresh(e, IndexOf(Used(e, env), t))| == Longest(Literals(e)) + 9 + IndexOf(Used(e, env), t);
    }
  }

  lemma ValueInjective(e: Expr, env: Env, v: Value, w: Value)
    requires Reachable(e, env, v) && Reachable(e, env, w)
    ensures RenameValue(e, env, v) == RenameValue(e, env, w) <==> v == w
    ensures Truthy(RenameValue(e, env, v)) == Truthy(v)
  {
    if v.VStr? && w.VStr? {
      RenameInjective(e, env, v.s, w.s);
    }
    if v.VStr? {
      RenameInjective(e, env, v.s, "");
    }
  }

  /** `x` is a part of `e`. */
  predicate Within(x: Expr, e: Expr) {
    (forall s | s in Literals(x) :: s in Literals(e)) && (forall r | r in Roots(x) :: r in Roots(e))
  }

  lemma UsedHas(e: Expr, env: Env, root: string)
    ensures env.auth.uid in Used(e, env) && env.auth.email in Used(e, env)
    ensures root in Roots(e) && root in env.vars ==> env.vars[root] in Used(e, env)
  {
    var used := Used(e, env);
    assert used[0] == env.auth.uid && used[1] == env.auth.email;
    if root in Roots(e) && root in env.vars {
      var i :| 0 <= i < |Roots(e)| && Roots(e)[i] == root;
      assert used[i + 2] == env.vars[root];
    }
  }

  lemma AccessRenamed(e: Expr, env: Env, root: string, fields: seq<string>)
    requires root in Roots(e)
    ensures Reachable(e, env, DenoteAccess(root, fields, env))
    ensures DenoteAccess(root, fields, Probe(e, env)) == RenameValue(e, env, DenoteAccess(root, fields, env))
  {
    UsedHas(e, env, root);
    BaseStays(e, env);
    ProbeVars(e, env, root);
    AccessOf(env, Probe(e, env), root, fields, s => Rename(e, env, s));
  }

  lemma BaseStays(e: Expr, env: Env)
    ensures "__auth__" in Base(e) && Rename(e, env, "__auth__") == "__auth__"
  {
  }

  lemma ProbeVars(e: Expr, env: Env, root: string)
    requires root in Roots(e)
    ensures var p := Probe(e, env).vars;
      (root in p <==> root in env.vars) && (root in p ==> p[root] == Rename(e, env, env.vars[root]))
  {
  }

  /** An access gets the user id, the email, the segment bound to its root, or a constant. */
  lemma AccessOf(env: Env, p: Env, root: string, fields: seq<string>, h: string -> string)
    requires h("__auth__") == "__auth__"
    requires p.auth == AuthCtx(h(env.auth.uid), h(env.auth.email), env.auth.authed)
    requires (root in p.vars <==> root in env.vars) && (root in p.vars ==> p.vars[root] == h(env.vars[root]))
    ensures var v := DenoteAccess(root, fields, env);
      && DenoteAccess(root, fields, p) == (if v.VStr? then VStr(h(v.s)) else v)
      && (v.VStr? ==>
            v.s in {"__auth__", env.auth.uid, env.auth.email} || (root in env.vars && v.s == env.vars[root]))
  {
  }

  lemma ChainRenamed(e: Expr, env: Env, root: string, fields: seq<string>)
    requires root in Roots(e)
    ensures Reachable(e, env, DenoteChain(root, fields, env))
    ensures DenoteChain(root, fields, Probe(e, env)) == RenameValue(e, env, DenoteChain(root, fields, env))
  {
    if !Keyword(root) {
      AccessRenamed(e, env, root, fields);
    }
  }

  /** The meaning under the renamed environment is the renamed meaning. */
  predicate Renamed(e: Expr, env: Env, x: Expr) {
    Reachable(e, env, Denote(x, env)) && Denote(x, Probe(e, env)) == RenameValue(e, env, Denote(x, env))
  }

  lemma NotRenamed(e: Expr, env: Env, x: Expr)
    requires x.Not? && Renamed(e, env, x.e)
    ensures Renamed(e, env, x)
  {
    ValueInjective(e, env, Denote(x.e, env), VNull);
  }

  lemma BothRenamed(e: Expr, env: Env, x: Expr)
    requires (x.Cmp? || x.And? || x.Or?) && Renamed(e, env, x.l) && Renamed(e, env, x.r)
    ensures Renamed(e, env, x)
  {
    var v, w := Denote(x.l, env), Denote(x.r, env);
    ValueInjective(e, env, v, w);
    ValueInjective(e, env, w, v);
  }

  lemma {:induction false} MeaningRenamed(e: Expr, env: Env, x: Expr)
    requires Within(x, e)
    ensures Renamed(e, env, x)
    decreases x
  {
    match x {
      case Chain(root, items) => ChainRenamed(e, env, root, Names(items));
      case Paren(y) => MeaningRenamed(e, env, y);
      case Open(y) => MeaningRenamed(e, env, y);
      case Not(y) => MeaningRenamed(e, env, y); NotRenamed(e, env, x);
      case Missing =>
      case Stray(_) =>
      case StrLit(_) =>
      case _ =>
        assert Within(x.l, e) && Within(x.r, e);
        MeaningRenamed(e, env, x.l);
        MeaningRenamed(e, env, x.r);
        BothRenamed(e, env, x);
    }
  }

  // ----- the probes suffice -----

  lemma {:induction false} VarsTried(names: seq<string>, pool: set<string>, m: Vars)
    requires m.Keys <= (set x | x in names) && m.Values <= pool
    ensures m in AllVars(names, pool)
    decreases |names|
  {
    if names == [] {
      assert m == map[];
    } else {
      var x, rest := names[0], names[1..];
      assert forall k | k in names :: k == x || k in rest;
      if x in m {
        var fewer := m - {x};
        VarsTried(rest, pool, fewer);
        assert m == fewer[x := m[x]] && m[x] in m.Values;
      } else {
        VarsTried(rest, pool, m);
      }
    }
  }

  lemma RenamedTried(e: Expr, env: Env, s: string)
    requires s in Used(e, env)
    ensures Rename(e, env, s) in Pool(e)
  {
  }

  lemma ProbeTried(e: Expr, env: Env)
    ensures Probe(e, env) in Probes(e)
  {
    var p := Probe(e, env);
    UsedHas(e, env, "");
    RenamedTried(e, env, env.auth.uid);
    RenamedTried(e, env, env.auth.email);
    forall x | x in p.vars
      ensures p.vars[x] in Pool(e)
    {
      UsedHas(e, env, x);
      RenamedTried(e, env, env.vars[x]);
    }
    VarsTried(Roots(e), Pool(e), p.vars);
  }

  /** A tree is false for every user and binding exactly if it is false for the probes. */
  lemma RefusalExact(e: Expr)
    ensures (forall env: Env :: Refuses(e, env)) <==> RefusesProbes(e)
  {
    if RefusesProbes(e) {
      forall env: Env
        ensures Refuses(e, env)
      {
        MeaningRenamed(e, env, e);
        ValueInjective(e, env, Denote(e, env), VNull);
        ProbeTried(e, env);
      }
    }
  }

  // ----- "on any parse error it returns false" -----

  /** What is promised of one text. */
  ghost predicate FailsClosed(text: string) {
    !WellFormed(text) ==> forall env: Env :: !EvalExpr(text, env)
  }

  /** The promise is kept exactly for the texts that are well-formed or refuse the probes. */
  lemma FailsClosedExact(text: string)
    ensures FailsClosed(text) <==> Checks(text) || RefusesProbes(ReadAs(text))
  {
    var e := ReadAs(text);
    WellFormedExact(text);
    RefusalExact(e);
    if RefusesProbes(e) {
      forall env: Env
        ensures !EvalExpr(text, env)
      {
        AnyTextEvaluates(text, env);
        assert Refuses(e, env);
      }
    } else {
      var env: Env :| !Refuses(e, env);
      AnyTextEvaluates(text, env);
    }
  }

  /** It is not kept for a lone `!`: that is no expression, and it grants to everybody. */
  lemma LoneNotGrants(env: Env)
    ensures !WellFormed("!") && EvalExpr("!", env) && !FailsClosed("!")
  {
    assert T.Lex("!") == [T.Not, T.EOF] by {
      assert "!"[1..] == "" && T.First("!") == ([T.Not], 1);
    }
    var e, ts := Not(Missing), [T.Not, T.EOF];
    assert Yield(e) + [T.EOF] == ts;
    assert ReadsTo("!", e, [T.EOF]);
    AnyTextEvaluates("!", env);
    WellFormedExact("!");
    assert !Clean(e);
  }
}
