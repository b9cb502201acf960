/** What rule texts evaluate to, said of the texts: truth, negation, conjunction, disjunction and comparison. */
module RuleTexts {
  import opened Options
  import opened Evaluator
  import opened RuleSamples
  import T = Tokenizer
  import G = Grammar
  import Reading

  /** The text is written for the expression. */
  ghost predicate Spelt(s: string, e: G.Expr) {
    G.Derivation(e) && T.Writes(s, G.Yield(e))
  }

  /** The expression compared with the empty string. */
  function NotEmpty(e: G.Expr): G.Expr {
    G.Cmp(T.Neq("!="), e, G.StrLit(""))
  }

  /** Null, false and the empty string are false, and all else is true. */
  lemma TruthOfText(e: G.Expr, s: string, env: Env)
    requires Spelt(s, e)
    ensures EvalExpr(s, env) <==>
      G.Denote(e, env) != VNull && G.Denote(e, env) != VBool(false) && G.Denote(e, env) != VStr("")
  {
    Reading.WrittenEvaluates(e, s, env);
  }

  /** A text for a string is true just when a text that compares the string with the empty one is. */
  lemma StringsAsCompared(e: G.Expr, s: string, compared: string, env: Env)
    requires Spelt(s, e) && Spelt(compared, NotEmpty(e)) && G.Denote(e, env).VStr?
    ensures EvalExpr(s, env) <==> EvalExpr(compared, env)
  {
    Reading.WrittenEvaluates(e, s, env);
    Reading.WrittenEvaluates(NotEmpty(e), compared, env);
  }

  /** A negation evaluates to the opposite of what is negated. */
  lemma NegatedText(e: G.Expr, s: string, negated: string, env: Env)
    requires Spelt(s, e) && Spelt(negated, G.Not(e))
    ensures EvalExpr(negated, env) <==> !EvalExpr(s, env)
  {
    Reading.WrittenEvaluates(e, s, env);
    Reading.WrittenEvaluates(G.Not(e), negated, env);
  }

  lemma ConjoinedText(d: G.Expr, s: string, e: G.Expr, t: string, both: string, env: Env)
    requires Spelt(s, d) && Spelt(t, e) && Spelt(both, G.And(d, e))
    ensures EvalExpr(both, env) <==> EvalExpr(s, env) && EvalExpr(t, env)
  {
    Reading.WrittenEvaluates(d, s, env);
    Reading.WrittenEvaluates(e, t, env);
    Reading.WrittenEvaluates(G.And(d, e), both, env);
  }

  lemma DisjoinedText(d: G.Expr, s: string, e: G.Expr, t: string, either: string, env: Env)
    requires Spelt(s, d) && Spelt(t, e) && Spelt(either, G.Or(d, e))
    ensures EvalExpr(either, env) <==> EvalExpr(s, env) || EvalExpr(t, env)
  {
    Reading.WrittenEvaluates(d, s, env);
    Reading.WrittenEvaluates(e, t, env);
    Reading.WrittenEvaluates(G.Or(d, e), either, env);
  }

  /** Two sides are equal just when they are not unequal, and each is equal to itself. */
  lemma ComparedText(d: G.Expr, e: G.Expr, eq: T.Tok, same: string, neq: T.Tok, differ: string, env: Env)
    requires eq.Eq? && neq.Neq? && Spelt(same, G.Cmp(eq, d, e)) && Spelt(differ, G.Cmp(neq, d, e))
    ensures EvalExpr(same, env) <==> !EvalExpr(differ, env)
    ensures EvalExpr(same, env) <==> G.Denote(d, env) == G.Denote(e, env)
  {
    Reading.WrittenEvaluates(G.Cmp(eq, d, e), same, env);
    Reading.WrittenEvaluates(G.Cmp(neq, d, e), differ, env);
  }

  // ----- `auth` alone, and its members -----

  lemma LastName(name: string)
    requires T.IsIdent(name)
    ensures T.Writes(name, [T.Ident(name)])
  {
    T.WritesNothing();
    NameText(name, "", [], name);
  }

  lemma NameSpelt(name: string)
    requires T.IsIdent(name)
    ensures Spelt(name, G.Name(name))
  {
    LastName(name);
    assert G.Yield(G.Name(name)) == [T.Ident(name)];
  }

  lemma NotNameSpelt(name: string, out: string)
    requires T.IsIdent(name) && out == "!" + name && name[0] != '='
    ensures Spelt(out, G.Not(G.Name(name)))
  {
    NameSpelt(name);
    T.WritesNext(T.Not, "!", name, [T.Ident(name)]);
    assert G.Clean(G.Name(name)) && G.Shaped(G.Name(name), 3);
    assert G.Yield(G.Not(G.Name(name))) == [T.Not] + [T.Ident(name)];
  }

  lemma MemberYields(name: string, member: string)
    ensures var e := G.Access(name, [member]);
      && G.Yield(e) == [T.Ident(name)] + ([T.Dot] + [T.Ident(member)]) && G.Names(e.items) == [member]
      && (!G.Keyword(name) ==> G.Derivation(e))
  {
    var e := G.Access(name, [member]);
    assert e.items == [Some(member)] && [Some(member)][1..] == [];
    assert G.Dotted(e.items) == [T.Dot, T.Ident(member)];
  }

  lemma DotWrites(member: string, toks: seq<T.Tok>, dot: string)
    requires T.IsIdent(member) && T.Writes(member, toks) && T.Spells(T.Dot, dot)
    ensures T.Writes(dot + member, [T.Dot] + toks)
  {
    T.WritesNext(T.Dot, dot, member, toks);
  }

  lemma MemberWrites(name: string, member: string, dot: string, out: string)
    requires T.IsIdent(name) && T.IsIdent(member) && T.Spells(T.Dot, dot) && out == name + (dot + member)
    ensures T.Writes(out, [T.Ident(name)] + ([T.Dot] + [T.Ident(member)]))
  {
    LastName(member);
    DotWrites(member, [T.Ident(member)], dot);
    NameText(name, dot + member, [T.Dot] + [T.Ident(member)], out);
  }

  /** `auth` is true for a user and false without one, and `!auth` the other way round. */
  lemma AuthText(auth: string, negated: string, env: Env)
    requires auth == "auth" && negated == "!auth"
    ensures EvalExpr(auth, env) <==> env.auth.authed
    ensures EvalExpr(negated, env) <==> !env.auth.authed
  {
    NameSpelt(auth);
    NotNameSpelt(auth, negated);
    TruthOfText(G.Name(auth), auth, env);
    NegatedText(G.Name(auth), auth, negated, env);
  }

  /** `auth.uid` and `auth.email` are true for a user of whom they are not empty. */
  lemma MemberText(auth: string, member: string, text: string, env: Env)
    requires auth == "auth" && (member == "uid" || member == "email") && text == auth + ("." + member)
    ensures EvalExpr(text, env) <==>
      env.auth.authed && (if member == "uid" then env.auth.uid else env.auth.email) != ""
  {
    var e := G.Access(auth, [member]);
    MemberYields(auth, member);
    MemberWrites(auth, member, ".", text);
    TruthOfText(e, text, env);
  }

  /** A `$` variable alone is true where it is bound to a segment that is not empty. */
  lemma VariableText(name: string, env: Env)
    requires T.IsIdent(name) && name[0] == '$'
    ensures EvalExpr(name, env) <==> name in env.vars && env.vars[name] != ""
  {
    NameSpelt(name);
    TruthOfText(G.Name(name), name, env);
  }

  /** Any other name alone is false: it is null, like a variable that is not bound. */
  lemma UnknownText(name: string, env: Env)
    requires T.IsIdent(name) && name != "auth" && name != "true" && (name[0] == '$' ==> name !in env.vars)
    ensures !EvalExpr(name, env)
  {
    NameSpelt(name);
    TruthOfText(G.Name(name), name, env);
  }

  lemma TrueText(text: string, env: Env)
    requires text == "true"
    ensures EvalExpr(text, env)
  {
    NameSpelt(text);
    TruthOfText(G.Name(text), text, env);
  }
}
