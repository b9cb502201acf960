/** The documented grammar of rule expressions: syntax trees, their tokens, and what they mean.

    Beside the phrases of the grammar there are three that are not, and which the parser goes on with all the same:
    a missing operand, a token that is none where one should be, and a parenthesis left open. */
module Grammar {
  import opened Options
  import T = Tokenizer
  import opened Evaluator

  datatype Expr =
    | StrLit(s: string)
    /** A name and what is behind it: a dot with a name, or a dot without. */
    | Chain(root: string, items: seq<Option<string>>)
    | Paren(e: Expr)
    | Not(e: Expr)
    | Cmp(op: T.Tok, l: Expr, r: Expr)
    | And(l: Expr, r: Expr)
    | Or(l: Expr, r: Expr)
    | Missing
    | Stray(t: T.Tok)
    | Open(e: Expr)

  predicate Keyword(s: string) {
    s == "true" || s == "false" || s == "null"
  }

  /** `true`, `false`, `null`, or a name alone. */
  function Name(name: string): Expr {
    Chain(name, [])
  }

  function Access(root: string, fields: seq<string>): Expr {
    Chain(root, seq(|fields|, i requires 0 <= i < |fields| => Some(fields[i])))
  }

  predicate IsCmpOp(t: T.Tok) {
    t.Eq? || t.Neq?
  }

  /** A tree of the grammar: nothing is missing, astray or open, and no dot is without a name.  The three keywords
      are literals, which have no members. */
  predicate Clean(e: Expr) {
    match e
    case StrLit(_) => true
    case Chain(root, items) =>
      (forall i | 0 <= i < |items| :: items[i].Some?) && (Keyword(root) ==> items == [])
    case Paren(x) => Clean(x)
    case Not(x) => Clean(x)
    case Cmp(op, l, r) => IsCmpOp(op) && Clean(l) && Clean(r)
    case And(l, r) => Clean(l) && Clean(r)
    case Or(l, r) => Clean(l) && Clean(r)
    case _ => false
  }

  // ----- meaning -----

  function Names(items: seq<Option<string>>): seq<string> {
    if items == [] then []
    else (if items[0].Some? then [items[0].value] else []) + Names(items[1..])
  }

  /** `auth` is null without a user and a value that is not null with one; it has the members `uid` and
      `email`; a `$` variable is the segment bound to it; anything else is null. */
  function DenoteAccess(root: string, fields: seq<string>, env: Env): Value {
    if root == "auth" && env.auth.authed then
      if fields == [] then VStr("__auth__")
      else if fields[0] == "uid" then VStr(env.auth.uid)
      else if fields[0] == "email" then VStr(env.auth.email)
      else VNull
    else if root != "auth" && root != "" && root[0] == '$' && root in env.vars then VStr(env.vars[root])
    else VNull
  }

  function DenoteChain(root: string, fields: seq<string>, env: Env): Value {
    if root == "true" then VBool(true)
    else if root == "false" then VBool(false)
    else if root == "null" then VNull
    else DenoteAccess(root, fields, env)
  }

  /** What is missing or astray counts as null. */
  function Denote(e: Expr, env: Env): Value {
    match e
    case StrLit(s) => VStr(s)
    case Chain(root, items) => DenoteChain(root, Names(items), env)
    case Paren(x) => Denote(x, env)
    case Not(x) => VBool(!Truthy(Denote(x, env)))
    case Cmp(op, l, r) => VBool((Denote(l, env) == Denote(r, env)) == op.Eq?)
    case And(l, r) => VBool(Truthy(Denote(l, env)) && Truthy(Denote(r, env)))
    case Or(l, r) => VBool(Truthy(Denote(l, env)) || Truthy(Denote(r, env)))
    case Missing => VNull
    case Stray(_) => VNull
    case Open(x) => Denote(x, env)
  }

  // ----- tokens and levels -----

  function Dotted(items: seq<Option<string>>): seq<T.Tok> {
    if items == [] then []
    else (if items[0].Some? then [T.Dot, T.Ident(items[0].value)] else [T.Dot]) + Dotted(items[1..])
  }

  /** The tokens of a tree. */
  function Yield(e: Expr): seq<T.Tok> {
    match e
    case StrLit(s) => [T.Str(s)]
    case Chain(root, items) => [T.Ident(root)] + Dotted(items)
    case Paren(x) => [T.LP] + Yield(x) + [T.RP]
    case Not(x) => [T.Not] + Yield(x)
    case Cmp(op, l, r) => Yield(l) + [op] + Yield(r)
    case And(l, r) => Yield(l) + [T.And] + Yield(r)
    case Or(l, r) => Yield(l) + [T.Or] + Yield(r)
    case Missing => []
    case Stray(t) => [t]
    case Open(x) => [T.LP] + Yield(x)
  }

  /** How tightly a phrase binds: the grammar level that yields it. */
  function Level(e: Expr): nat {
    match e
    case Or(_, _) => 0
    case And(_, _) => 1
    case Cmp(_, _, _) => 2
    case Not(_) => 3
    case _ => 4
  }

  /** Every part is of the level at which the grammar wants it. */
  predicate Shaped(e: Expr, p: nat) {
    && Level(e) >= p
    && match e
       case Paren(x) => Shaped(x, 0)
       case Open(x) => Shaped(x, 0)
       case Not(x) => Shaped(x, 3)
       case Cmp(_, l, r) => Shaped(l, 3) && Shaped(r, 3)
       case And(l, r) => Shaped(l, 1) && Shaped(r, 2)
       case Or(l, r) => Shaped(l, 0) && Shaped(r, 1)
       case _ => true
  }

  /** A derivation of the documented grammar.  Parentheses may stand where they are not needed. */
  predicate Derivation(e: Expr) {
    Clean(e) && Shaped(e, 0)
  }

  // ----- parentheses by precedence -----

  /** The tree with parentheses put where the grammar wants level `p` and a part binds less tightly. */
  function Parens(e: Expr, p: nat): Expr
    decreases e, if Level(e) < p then 1 else 0
  {
    if Level(e) < p then Paren(Parens(e, Level(e)))
    else
      match e
      case Paren(x) => Paren(Parens(x, 0))
      case Open(x) => Open(Parens(x, 0))
      case Not(x) => Not(Parens(x, 3))
      case Cmp(op, l, r) => Cmp(op, Parens(l, 3), Parens(r, 3))
      case And(l, r) => And(Parens(l, 1), Parens(r, 2))
      case Or(l, r) => Or(Parens(l, 0), Parens(r, 1))
      case _ => e
  }

  /** The parentheses make a derivation of every clean tree, and do not change its meaning. */
  lemma {:induction false} ParensDerive(e: Expr, p: nat, env: Env)
    requires Clean(e) && p <= 4
    ensures Clean(Parens(e, p)) && Shaped(Parens(e, p), p) && Denote(Parens(e, p), env) == Denote(e, env)
    decreases e, if Level(e) < p then 1 else 0
  {
    if Level(e) < p {
      ParensDerive(e, Level(e), env);
      ShapedBelow(Parens(e, Level(e)), Level(e));
    } else {
      match e {
        case Paren(x) => ParensDerive(x, 0, env);
        case Not(x) => ParensDerive(x, 3, env);
        case Cmp(_, l, r) => ParensDerive(l, 3, env); ParensDerive(r, 3, env);
        case And(l, r) => ParensDerive(l, 1, env); ParensDerive(r, 2, env);
        case Or(l, r) => ParensDerive(l, 0, env); ParensDerive(r, 1, env);
        case _ =>
      }
    }
  }

  lemma ShapedBelow(e: Expr, p: nat)
    requires Shaped(e, p)
    ensures Shaped(e, 0)
  {
  }

  // ----- phrases before a next token -----

  /** A phrase that is read at level `p` when the token `t` follows it, up to the loop of that level.  What is not of
      the grammar is there only where the tokens leave no choice. */
  predicate Phrase(e: Expr, p: nat, t: T.Tok) {
    && (p <= 2 && Level(e) >= 3 ==> !IsCmpOp(t))
    && (p == 0 && Level(e) >= 1 ==> !t.And?)
    && match e
       case StrLit(_) => true
       case Chain(_, items) => !t.Dot? && (items != [] && items[|items| - 1].None? ==> !t.Ident?)
       case Paren(x) => Phrase(x, 0, T.RP)
       case Not(x) => p <= 3 && Phrase(x, 3, t)
       case Cmp(op, l, r) => p <= 2 && IsCmpOp(op) && Phrase(l, 3, op) && Phrase(r, 3, t)
       case And(l, r) => p <= 1 && Phrase(l, 1, T.And) && Phrase(r, 2, t)
       case Or(l, r) => p == 0 && Phrase(l, 0, T.Or) && Phrase(r, 1, t) && !t.And?
       case Missing => t.EOF?
       case Stray(s) => s.RP? || s.Dot? || IsCmpOp(s) || s.And? || s.Or?
       case Open(x) => Phrase(x, 0, t) && !t.Or? && !t.RP?
  }

  /** A whole expression before `t`. */
  predicate Whole(e: Expr, t: T.Tok) {
    Phrase(e, 0, t) && !t.Or?
  }

  /** What may follow a phrase of the grammar: no token that it would go on with. */
  predicate Follows(p: nat, t: T.Tok) {
    !t.Dot? && (p <= 2 ==> !IsCmpOp(t)) && (p == 0 ==> !t.And?)
  }

  lemma {:induction false} CleanPhrase(e: Expr, p: nat, t: T.Tok)
    requires Clean(e) && Shaped(e, p) && Follows(p, t)
    ensures Phrase(e, p, t)
  {
    match e {
      case Paren(x) => CleanPhrase(x, 0, T.RP);
      case Not(x) => CleanPhrase(x, 3, t);
      case Cmp(op, l, r) => CleanPhrase(l, 3, op); CleanPhrase(r, 3, t);
      case And(l, r) => CleanPhrase(l, 1, T.And); CleanPhrase(r, 2, t);
      case Or(l, r) => CleanPhrase(l, 0, T.Or); CleanPhrase(r, 1, t);
      case _ =>
    }
  }

  lemma {:induction false} PhraseShaped(e: Expr, p: nat, t: T.Tok)
    requires Phrase(e, p, t)
    ensures p <= 4 ==> Shaped(e, p)
  {
    match e {
      case Paren(x) => PhraseShaped(x, 0, T.RP);
      case Open(x) => PhraseShaped(x, 0, t);
      case Not(x) => PhraseShaped(x, 3, t);
      case Cmp(op, l, r) => PhraseShaped(l, 3, op); PhraseShaped(r, 3, t);
      case And(l, r) => PhraseShaped(l, 1, T.And); PhraseShaped(r, 2, t);
      case Or(l, r) => PhraseShaped(l, 0, T.Or); PhraseShaped(r, 1, t);
      case _ =>
    }
  }
}
