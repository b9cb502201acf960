/** Who is let through by the default rules and by rules that give each user a node of its own. */
module RuleSamples {
  import opened Options
  import opened Paths
  import opened Evaluator
  import opened RuleSet
  import T = Tokenizer
  import G = Grammar
  import Reading

  /** A spelling of the rule that asks for a user: `auth != null`. */
  ghost predicate AsksForUser(rule: string) {
    rule != "" && T.Writes(rule, [T.Ident("auth"), T.Neq("!="), T.Ident("null")])
  }

  lemma UserRule(rule: string, env: Env)
    requires AsksForUser(rule)
    ensures EvalExpr(rule, env) == env.auth.authed
  {
    var e := G.Cmp(T.Neq("!="), G.Name("auth"), G.Name("null"));
    assert G.Yield(e) == [T.Ident("auth"), T.Neq("!="), T.Ident("null")];
    Reading.WrittenEvaluates(e, rule, env);
  }

  /** Under the default rules, which have this one rule at the root, every request of a user is allowed, and no
      other. */
  lemma DefaultNeedsUser(rule: string, segs: Path, op: Access, auth: AuthCtx)
    requires AsksForUser(rule)
    ensures Granted(RuleNode(rule, rule, map[]), segs, op, auth) <==> auth.authed
  {
    var none: Vars := map[];
    var root := RuleNode(rule, rule, map[]);
    var w := [Visit(root, none)];
    UserRule(rule, Env(auth, none));
    assert IsWalk(w, root, segs) && Complete(w, segs) && OneWildcard(root);
    CheckDecides(root, segs, op, auth, auth.authed, w);
  }

  /** With the rule for reading at the root, and one that refuses everybody for writing, users read everything and
      nobody writes anything. */
  lemma UsersReadNobodyWrites(rule: string, deny: string, segs: Path, op: Access, auth: AuthCtx)
    requires AsksForUser(rule) && AsksNobody(deny)
    ensures Granted(RuleNode(rule, deny, map[]), segs, op, auth) <==> op.Read? && auth.authed
  {
    var none: Vars := map[];
    var root := RuleNode(rule, deny, map[]);
    var w := [Visit(root, none)];
    UserRule(rule, Env(auth, none));
    NobodyRule(deny, Env(auth, none));
    assert IsWalk(w, root, segs) && Complete(w, segs) && OneWildcard(root);
    CheckDecides(root, segs, op, auth, op.Read? && auth.authed, w);
  }

  /** A spelling of the rule that asks for the user a node belongs to: `auth.uid === $uid`. */
  ghost predicate AsksForOwner(rule: string) {
    rule != "" && T.Writes(rule, [T.Ident("auth"), T.Dot, T.Ident("uid"), T.Eq("==="), T.Ident("$uid")])
  }

  /** Without a user and without a binding both sides of the rule are null, and equal. */
  lemma OwnerRule(rule: string, env: Env)
    requires AsksForOwner(rule)
    ensures EvalExpr(rule, env) ==
      ((if env.auth.authed then VStr(env.auth.uid) else VNull) ==
       (if "$uid" in env.vars then VStr(env.vars["$uid"]) else VNull))
  {
    var e := G.Cmp(T.Eq("==="), G.Access("auth", ["uid"]), G.Name("$uid"));
    assert G.Access("auth", ["uid"]).items == [Some("uid")] && [Some("uid")][1..] == [];
    assert G.Dotted([Some("uid")]) == [T.Dot, T.Ident("uid")];
    assert G.Names([Some("uid")]) == ["uid"];
    assert G.Yield(e) == [T.Ident("auth"), T.Dot, T.Ident("uid"), T.Eq("==="), T.Ident("$uid")];
    Reading.WrittenEvaluates(e, rule, env);
  }

  /** A spelling of the rule that refuses everybody: `false`. */
  ghost predicate AsksNobody(deny: string) {
    deny != "" && T.Writes(deny, [T.Ident("false")])
  }

  lemma NobodyRule(deny: string, env: Env)
    requires AsksNobody(deny)
    ensures !EvalExpr(deny, env)
  {
    assert G.Yield(G.Name("false")) == [T.Ident("false")];
    Reading.WrittenEvaluates(G.Name("false"), deny, env);
  }

  /** Each user has a node of its own below `users`; the root refuses, and `users` has no rule. */
  function Own(rule: string): RuleNode {
    RuleNode(rule, rule, map[])
  }

  function Users(rule: string): RuleNode {
    RuleNode("", "", map["$uid" := Own(rule)])
  }

  function PerUser(deny: string, rule: string): RuleNode {
    RuleNode(deny, deny, map["users" := Users(rule)])
  }

  /** The walk to the node of user `x` or below it.  A segment that is spelled like the wildcard takes the
      child of that name and binds nothing. */
  lemma OwnNodeWalk(deny: string, rule: string, x: string, more: Path)
    ensures var vars: Vars := if x == "$uid" then map[] else map["$uid" := x];
      var w := [Visit(PerUser(deny, rule), map[]), Visit(Users(rule), map[]), Visit(Own(rule), vars)];
      IsWalk(w, PerUser(deny, rule), ["users", x] + more) && Complete(w, ["users", x] + more)
  {
    var vars: Vars := if x == "$uid" then map[] else map["$uid" := x];
    var segs := ["users", x] + more;
    var none: Vars := map[];
    assert segs[0] == "users" && segs[1] == x;
    assert StepTo(Visit(PerUser(deny, rule), none), "users", Visit(Users(rule), none));
    assert StepTo(Visit(Users(rule), none), x, Visit(Own(rule), vars)) by {
      assert "$uid" in Users(rule).children && Wildcard("$uid") && none["$uid" := x] == map["$uid" := x];
    }
  }

  /** With those rules a user reaches the own node and everything below it, and nobody else does; at the segment
      spelled like the wildcard it is the requests without a user that are let through. */
  lemma OwnNodeOnly(deny: string, rule: string, x: string, more: Path, op: Access, auth: AuthCtx)
    requires AsksNobody(deny) && AsksForOwner(rule)
    ensures Granted(PerUser(deny, rule), ["users", x] + more, op, auth) <==>
      if x == "$uid" then !auth.authed else auth.authed && auth.uid == x
  {
    var vars: Vars := if x == "$uid" then map[] else map["$uid" := x];
    var none: Vars := map[];
    var w := [Visit(PerUser(deny, rule), none), Visit(Users(rule), none), Visit(Own(rule), vars)];
    OwnNodeWalk(deny, rule, x, more);
    OwnerRule(rule, Env(auth, vars));
    NobodyRule(deny, Env(auth, none));
    assert OneWildcard(Own(rule)) && OneWildcard(Users(rule)) && OneWildcard(PerUser(deny, rule));
    CheckDecides(PerUser(deny, rule), ["users", x] + more, op, auth, EvalExpr(rule, Env(auth, vars)), w);
  }

  /** With other rules for reading, the owner alone writes the own node: who may write is decided by the write rules. */
  lemma OwnNodeWrites(deny: string, rule: string, root: RuleNode, x: string, more: Path, auth: AuthCtx)
    requires AsksNobody(deny) && AsksForOwner(rule) && SameWrites(root, PerUser(deny, rule))
    ensures Granted(root, ["users", x] + more, Write, auth) <==>
      if x == "$uid" then !auth.authed else auth.authed && auth.uid == x
  {
    WritesDecide(root, PerUser(deny, rule), ["users", x] + more, auth);
    OwnNodeOnly(deny, rule, x, more, Write, auth);
  }

  /** And with other rules for writing the owner alone reads it. */
  lemma OwnNodeReads(deny: string, rule: string, root: RuleNode, x: string, more: Path, auth: AuthCtx)
    requires AsksNobody(deny) && AsksForOwner(rule) && SameReads(root, PerUser(deny, rule))
    ensures Granted(root, ["users", x] + more, Read, auth) <==>
      if x == "$uid" then !auth.authed else auth.authed && auth.uid == x
  {
    ReadsDecide(root, PerUser(deny, rule), ["users", x] + more, auth);
    OwnNodeOnly(deny, rule, x, more, Read, auth);
  }

  // ----- the rules as they are usually written -----

  lemma NameText(name: string, s: string, toks: seq<T.Tok>, out: string)
    requires T.IsIdent(name) && T.Ends(T.Ident(name), s) && T.Writes(s, toks) && out == name + s
    ensures T.Writes(out, [T.Ident(name)] + toks)
  {
    T.WritesNext(T.Ident(name), name, s, toks);
  }

  lemma SpacedName(name: string, out: string)
    requires T.IsIdent(name) && out == " " + name
    ensures T.Writes(out, [T.Ident(name)])
  {
    T.WritesNothing();
    T.WritesMore(" ", T.Ident(name), name, "", []);
    assert " " + name + "" == " " + name;
  }

  lemma SpacedOp(t: T.Tok, w: string, s: string, toks: seq<T.Tok>, out: string)
    requires T.Spells(t, w) && T.Ends(t, s) && T.Writes(s, toks) && out == " " + w + s
    ensures T.Writes(out, [t] + toks)
  {
    T.WritesMore(" ", t, w, s, toks);
  }

  lemma NullTail()
    ensures T.Writes(" != null", [T.Neq("!="), T.Ident("null")])
  {
    SpacedName("null", " null");
    SpacedOp(T.Neq("!="), "!=", " null", [T.Ident("null")], " != null");
  }

  lemma DefaultText()
    ensures AsksForUser("auth != null")
  {
    NullTail();
    NameText("auth", " != null", [T.Neq("!="), T.Ident("null")], "auth != null");
  }

  lemma VariableTail()
    ensures T.Writes(" === $uid", [T.Eq("==="), T.Ident("$uid")])
  {
    SpacedName("$uid", " $uid");
    SpacedOp(T.Eq("==="), "===", " $uid", [T.Ident("$uid")], " === $uid");
  }

  lemma UidTail()
    ensures T.Writes("uid === $uid", [T.Ident("uid"), T.Eq("==="), T.Ident("$uid")])
  {
    VariableTail();
    NameText("uid", " === $uid", [T.Eq("==="), T.Ident("$uid")], "uid === $uid");
  }

  lemma DotUidTail()
    ensures T.Writes(".uid === $uid", [T.Dot, T.Ident("uid"), T.Eq("==="), T.Ident("$uid")])
  {
    UidTail();
    var toks := [T.Ident("uid"), T.Eq("==="), T.Ident("$uid")];
    T.WritesNext(T.Dot, ".", "uid === $uid", toks);
    assert "." + "uid === $uid" == ".uid === $uid";
    assert [T.Dot] + toks == [T.Dot, T.Ident("uid"), T.Eq("==="), T.Ident("$uid")];
  }

  lemma OwnerWords()
    ensures "auth.uid === $uid" == "auth" + ".uid === $uid"
  {
  }

  lemma OwnerTokens()
    ensures [T.Ident("auth"), T.Dot, T.Ident("uid"), T.Eq("==="), T.Ident("$uid")]
         == [T.Ident("auth")] + [T.Dot, T.Ident("uid"), T.Eq("==="), T.Ident("$uid")]
  {
  }

  lemma OwnerText()
    ensures AsksForOwner("auth.uid === $uid")
  {
    DotUidTail();
    OwnerWords();
    OwnerTokens();
    T.WritesNext(T.Ident("auth"), "auth", ".uid === $uid", [T.Dot, T.Ident("uid"), T.Eq("==="), T.Ident("$uid")]);
  }

  lemma NobodyText()
    ensures AsksNobody("false")
  {
    T.WritesNothing();
    NameText("false", "", [], "false");
  }
}
