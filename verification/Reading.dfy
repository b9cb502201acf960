/** How the evaluator reads any text at all: as one tree, found from the tokens alone, whose meaning it computes. */
module Reading {
  import opened Options
  import T = Tokenizer
  import opened Evaluator
  import opened Grammar

  datatype Reading = Reading(e: Expr, rest: seq<T.Tok>)

  function ROr(ts: seq<T.Tok>): (r: Reading)
    ensures |r.rest| <= |ts|
    decreases |ts|, 7
  {
    var a := RAnd(ts);
    ROrLoop(a.e, a.rest)
  }

  function ROrLoop(e: Expr, ts: seq<T.Tok>): (r: Reading)
    ensures |r.rest| <= |ts|
    decreases |ts|, 6
  {
    if Peek(ts).Or? then
      var a := RAnd(ts[1..]);
      ROrLoop(Or(e, a.e), a.rest)
    else Reading(e, ts)
  }

  function RAnd(ts: seq<T.Tok>): (r: Reading)
    ensures |r.rest| <= |ts|
    decreases |ts|, 5
  {
    var a := RCmp(ts);
    RAndLoop(a.e, a.rest)
  }

  function RAndLoop(e: Expr, ts: seq<T.Tok>): (r: Reading)
    ensures |r.rest| <= |ts|
    decreases |ts|, 4
  {
    if Peek(ts).And? then
      var a := RCmp(ts[1..]);
      RAndLoop(And(e, a.e), a.rest)
    else Reading(e, ts)
  }

  function RCmp(ts: seq<T.Tok>): (r: Reading)
    ensures |r.rest| <= |ts|
    decreases |ts|, 3
  {
    var a := RUnary(ts);
    if IsCmpOp(Peek(a.rest)) then
      var b := RUnary(a.rest[1..]);
      Reading(Cmp(Peek(a.rest), a.e, b.e), b.rest)
    else a
  }

  function RUnary(ts: seq<T.Tok>): (r: Reading)
    ensures |r.rest| <= |ts|
    decreases |ts|, 2
  {
    if Peek(ts).Not? then
      var a := RUnary(ts[1..]);
      Reading(Not(a.e), a.rest)
    else RPrimary(ts)
  }

  function RPrimary(ts: seq<T.Tok>): (r: Reading)
    ensures |r.rest| <= |ts|
    decreases |ts|, 1
  {
    var t := Peek(ts);
    if t.EOF? then Reading(Missing, ts)
    else if t.LP? then
      var a := ROr(ts[1..]);
      if Peek(a.rest).RP? then Reading(Paren(a.e), a.rest[1..]) else Reading(Open(a.e), a.rest)
    else if t.Str? then Reading(StrLit(t.val), ts[1..])
    else if t.Ident? then
      var (items, rest) := RItems(ts[1..]);
      Reading(Chain(t.val, items), rest)
    else Reading(Stray(t), ts[1..])
  }

  function RItems(ts: seq<T.Tok>): (r: (seq<Option<string>>, seq<T.Tok>))
    ensures |r.1| <= |ts|
    decreases |ts|
  {
    if Peek(ts).Dot? then
      if Peek(ts[1..]).Ident? then var r := RItems(ts[2..]); ([Some(ts[1].val)] + r.0, r.1)
      else var r := RItems(ts[1..]); ([None] + r.0, r.1)
    else ([], ts)
  }

  // ----- the evaluator computes the meaning of what is read -----

  predicate Agrees(r: Reading, p: Res, env: Env) {
    p == Res(Denote(r.e, env), r.rest)
  }

  lemma {:induction false} AgreesOr(ts: seq<T.Tok>, env: Env)
    ensures Agrees(ROr(ts), POr(ts, env), env)
    decreases |ts|, 7
  {
    AgreesAnd(ts, env);
    var a := RAnd(ts);
    AgreesOrLoop(a.e, a.rest, env);
  }

  lemma {:induction false} AgreesOrLoop(e: Expr, ts: seq<T.Tok>, env: Env)
    ensures Agrees(ROrLoop(e, ts), POrLoop(Denote(e, env), ts, env), env)
    decreases |ts|, 6
  {
    if Peek(ts).Or? {
      AgreesAnd(ts[1..], env);
      var a := RAnd(ts[1..]);
      AgreesOrLoop(Or(e, a.e), a.rest, env);
    }
  }

  lemma {:induction false} AgreesAnd(ts: seq<T.Tok>, env: Env)
    ensures Agrees(RAnd(ts), PAnd(ts, env), env)
    decreases |ts|, 5
  {
    AgreesCmp(ts, env);
    var a := RCmp(ts);
    AgreesAndLoop(a.e, a.rest, env);
  }

  lemma {:induction false} AgreesAndLoop(e: Expr, ts: seq<T.Tok>, env: Env)
    ensures Agrees(RAndLoop(e, ts), PAndLoop(Denote(e, env), ts, env), env)
    decreases |ts|, 4
  {
    if Peek(ts).And? {
      AgreesCmp(ts[1..], env);
      var a := RCmp(ts[1..]);
      AgreesAndLoop(And(e, a.e), a.rest, env);
    }
  }

  lemma {:induction false} AgreesCmp(ts: seq<T.Tok>, env: Env)
    ensures Agrees(RCmp(ts), PCmp(ts, env), env)
    decreases |ts|, 3
  {
    AgreesUnary(ts, env);
    var a := RUnary(ts);
    if IsCmpOp(Peek(a.rest)) {
      AgreesUnary(a.rest[1..], env);
    }
  }

  lemma {:induction false} AgreesUnary(ts: seq<T.Tok>, env: Env)
    ensures Agrees(RUnary(ts), PUnary(ts, env), env)
    decreases |ts|, 2
  {
    if Peek(ts).Not? {
      AgreesUnary(ts[1..], env);
    } else {
      AgreesPrimary(ts, env);
    }
  }

  lemma {:induction false} AgreesPrimary(ts: seq<T.Tok>, env: Env)
    ensures Agrees(RPrimary(ts), PPrimary(ts, env), env)
    decreases |ts|, 1
  {
    if Peek(ts).LP? {
      AgreesOr(ts[1..], env);
    } else if Peek(ts).Ident? {
      var (items, rest) := RItems(ts[1..]);
      AgreesItems([ts[0].val], ts[1..], env);
      Resolves(ts[0].val, Names(items), env);
    }
  }

  lemma {:induction false} AgreesItems(chain: seq<string>, ts: seq<T.Tok>, env: Env)
    requires chain != []
    ensures PChain(chain, ts, env) == Res(Resolve(chain + Names(RItems(ts).0), env), RItems(ts).1)
    decreases |ts|
  {
    if Peek(ts).Dot? {
      if Peek(ts[1..]).Ident? {
        var more := RItems(ts[2..]).0;
        AgreesItems(chain + [ts[1].val], ts[2..], env);
        assert ([Some(ts[1].val)] + more)[1..] == more;
        assert chain + [ts[1].val] + Names(more) == chain + ([ts[1].val] + Names(more));
      } else {
        var more := RItems(ts[1..]).0;
        AgreesItems(chain, ts[1..], env);
        assert ([None] + more)[1..] == more;
        assert [] + Names(more) == Names(more);
      }
    } else {
      assert chain + [] == chain;
    }
  }

  lemma Resolves(root: string, fields: seq<string>, env: Env)
    ensures Resolve([root] + fields, env) == DenoteChain(root, fields, env)
  {
    var chain := [root] + fields;
    assert chain[0] == root && (|chain| == 1 <==> fields == []) && (fields != [] ==> chain[1] == fields[0]);
  }

  // ----- what is read are the tokens of the tree -----

  /** The tree has exactly the tokens that were read, and is a whole expression before the next one. */
  predicate Covers(r: Reading, ts: seq<T.Tok>) {
    ts == Yield(r.e) + r.rest && Whole(r.e, Peek(r.rest))
  }

  lemma {:induction false} YieldsOr(ts: seq<T.Tok>)
    ensures Covers(ROr(ts), ts)
    decreases |ts|, 7
  {
    YieldsAnd(ts);
    var a := RAnd(ts);
    YieldsOrLoop(a.e, a.rest);
  }

  lemma {:induction false} YieldsOrLoop(e: Expr, ts: seq<T.Tok>)
    requires Phrase(e, 0, Peek(ts))
    ensures Covers(ROrLoop(e, ts), Yield(e) + ts)
    decreases |ts|, 6
  {
    if Peek(ts).Or? {
      YieldsAnd(ts[1..]);
      var a := RAnd(ts[1..]);
      YieldsOrLoop(Or(e, a.e), a.rest);
      Joined(Yield(e), T.Or, ts, Yield(a.e), a.rest);
    }
  }

  lemma Joined(l: seq<T.Tok>, t: T.Tok, ts: seq<T.Tok>, r: seq<T.Tok>, rest: seq<T.Tok>)
    requires ts != [] && ts[0] == t && ts[1..] == r + rest
    ensures l + ts == l + [t] + r + rest
  {
  }

  /** One level down: the phrase may be followed by `||`. */
  lemma {:induction false} YieldsAnd(ts: seq<T.Tok>)
    ensures var r := RAnd(ts); ts == Yield(r.e) + r.rest && Phrase(r.e, 0, Peek(r.rest))
    ensures var r := RAnd(ts); Phrase(r.e, 1, Peek(r.rest)) && !Peek(r.rest).And?
    decreases |ts|, 5
  {
    YieldsCmp(ts);
    var a := RCmp(ts);
    YieldsAndLoop(a.e, a.rest);
  }

  lemma {:induction false} YieldsAndLoop(e: Expr, ts: seq<T.Tok>)
    requires Phrase(e, 1, Peek(ts))
    ensures var r := RAndLoop(e, ts); Yield(e) + ts == Yield(r.e) + r.rest && !Peek(r.rest).And?
    ensures var r := RAndLoop(e, ts); Phrase(r.e, 1, Peek(r.rest)) && Phrase(r.e, 0, Peek(r.rest))
    decreases |ts|, 4
  {
    if Peek(ts).And? {
      YieldsCmp(ts[1..]);
      var a := RCmp(ts[1..]);
      YieldsAndLoop(And(e, a.e), a.rest);
      Joined(Yield(e), T.And, ts, Yield(a.e), a.rest);
    } else {
      Above(e, 1, Peek(ts));
    }
  }

  /** A phrase of a higher level is one of a lower level too, where its loop does not go on. */
  lemma Above(e: Expr, p: nat, t: T.Tok)
    requires Phrase(e, p, t) && 1 <= p <= 4 && (p == 1 ==> !t.And?) && (p == 3 ==> !IsCmpOp(t))
    ensures p != 4 && Level(e) >= p ==> Phrase(e, p - 1, t)
  {
  }

  lemma {:induction false} YieldsCmp(ts: seq<T.Tok>)
    ensures var r := RCmp(ts); ts == Yield(r.e) + r.rest && Phrase(r.e, 2, Peek(r.rest)) && Phrase(r.e, 1, Peek(r.rest))
    decreases |ts|, 3
  {
    YieldsUnary(ts);
    var a := RUnary(ts);
    if IsCmpOp(Peek(a.rest)) {
      var b := RUnary(a.rest[1..]);
      YieldsUnary(a.rest[1..]);
      Joined(Yield(a.e), Peek(a.rest), a.rest, Yield(b.e), b.rest);
    }
  }

  lemma {:induction false} YieldsUnary(ts: seq<T.Tok>)
    ensures Begins(RUnary(ts), ts)
    decreases |ts|, 2
  {
    if Peek(ts).Not? {
      YieldsUnary(ts[1..]);
    } else {
      YieldsPrimary(ts);
    }
  }

  /** What a phrase that begins a reading yields, and that it may stand before the next token. */
  predicate Begins(r: Reading, ts: seq<T.Tok>) {
    ts == Yield(r.e) + r.rest && Phrase(r.e, 3, Peek(r.rest)) && Level(r.e) >= 3
  }

  lemma YieldsToken(e: Expr, ts: seq<T.Tok>)
    requires ts != [] && (e == Stray(ts[0]) || (ts[0].Str? && e == StrLit(ts[0].val)))
    requires Phrase(e, 3, Peek(ts[1..]))
    ensures Begins(Reading(e, ts[1..]), ts)
  {
  }

  lemma YieldsParen(a: Reading, ts: seq<T.Tok>)
    requires ts != [] && ts[0] == T.LP && Covers(a, ts[1..])
    ensures Peek(a.rest).RP? ==> Begins(Reading(Paren(a.e), a.rest[1..]), ts)
    ensures !Peek(a.rest).RP? ==> Begins(Reading(Open(a.e), a.rest), ts)
  {
    assert ts == [T.LP] + (Yield(a.e) + a.rest);
    if Peek(a.rest).RP? {
      assert ts == [T.LP] + (Yield(a.e) + ([T.RP] + a.rest[1..]));
    }
  }

  lemma YieldsChain(items: seq<Option<string>>, rest: seq<T.Tok>, ts: seq<T.Tok>)
    requires ts != [] && ts[0].Ident? && Chained(ts[1..], items, rest)
    ensures Begins(Reading(Chain(ts[0].val, items), rest), ts)
  {
    assert ts == [ts[0]] + (Dotted(items) + rest);
  }

  lemma {:induction false} YieldsPrimary(ts: seq<T.Tok>)
    requires !Peek(ts).Not?
    ensures Begins(RPrimary(ts), ts)
    decreases |ts|, 1
  {
    var t := Peek(ts);
    if t.LP? {
      YieldsOr(ts[1..]);
      YieldsParen(ROr(ts[1..]), ts);
    } else if t.Ident? {
      YieldsItems(ts[1..]);
      YieldsChain(RItems(ts[1..]).0, RItems(ts[1..]).1, ts);
    } else if !t.EOF? {
      YieldsToken(RPrimary(ts).e, ts);
    }
  }

  /** The chain goes on with `items` and then stops. */
  predicate Chained(ts: seq<T.Tok>, items: seq<Option<string>>, rest: seq<T.Tok>) {
    && ts == Dotted(items) + rest && !Peek(rest).Dot?
    && (items != [] && items[|items| - 1].None? ==> !Peek(rest).Ident?)
  }

  lemma ChainedMore(ts: seq<T.Tok>, head: seq<T.Tok>, item: Option<string>, items: seq<Option<string>>,
                    rest: seq<T.Tok>, more: seq<T.Tok>)
    requires Chained(more, items, rest) && ts == head + more
    requires head == if item.Some? then [T.Dot, T.Ident(item.value)] else [T.Dot]
    requires item.None? ==> !Peek(more).Ident?
    ensures Chained(ts, [item] + items, rest)
  {
    assert ([item] + items)[1..] == items;
    if items == [] {
      assert more == rest;
    }
  }

  lemma {:induction false} YieldsItems(ts: seq<T.Tok>)
    ensures Chained(ts, RItems(ts).0, RItems(ts).1)
    decreases |ts|
  {
    if Peek(ts).Dot? {
      var two := Peek(ts[1..]).Ident?;
      var more := if two then ts[2..] else ts[1..];
      YieldsItems(more);
      ChainedMore(ts, if two then ts[..2] else ts[..1], if two then Some(ts[1].val) else None, RItems(more).0,
                  RItems(more).1, more);
    }
  }

  // ----- every phrase is read as what it is -----

  lemma ReadsName(name: string, more: seq<T.Tok>)
    ensures RItems([T.Dot, T.Ident(name)] + more) == ([Some(name)] + RItems(more).0, RItems(more).1)
  {
    var ts := [T.Dot, T.Ident(name)] + more;
    assert ts[1..][0] == ts[1] && ts[2..] == more;
  }

  lemma ReadsDot(more: seq<T.Tok>)
    requires !Peek(more).Ident?
    ensures RItems([T.Dot] + more) == ([None] + RItems(more).0, RItems(more).1)
  {
    assert ([T.Dot] + more)[1..] == more;
  }

  lemma {:induction false} ReadsItems(items: seq<Option<string>>, rest: seq<T.Tok>)
    requires !Peek(rest).Dot? && (items != [] && items[|items| - 1].None? ==> !Peek(rest).Ident?)
    ensures RItems(Dotted(items) + rest) == (items, rest)
    decreases |items|
  {
    if items == [] {
      assert Dotted(items) + rest == rest;
    } else {
      var first, tail := items[0], items[1..];
      assert items == [first] + tail;
      ReadsItems(tail, rest);
      ReadsOneMore(first, tail, rest);
    }
  }

  lemma DottedFirst(first: Option<string>, tail: seq<Option<string>>, rest: seq<T.Tok>)
    ensures Dotted([first] + tail) + rest ==
      (if first.Some? then [T.Dot, T.Ident(first.value)] else [T.Dot]) + (Dotted(tail) + rest)
  {
    assert ([first] + tail)[1..] == tail;
  }

  lemma ReadsOneMore(first: Option<string>, tail: seq<Option<string>>, rest: seq<T.Tok>)
    requires RItems(Dotted(tail) + rest) == (tail, rest)
    requires first.None? && tail == [] ==> !Peek(rest).Ident?
    ensures RItems(Dotted([first] + tail) + rest) == ([first] + tail, rest)
  {
    DottedFirst(first, tail, rest);
    if first.Some? {
      ReadsName(first.value, Dotted(tail) + rest);
    } else {
      NoNameNext(tail, rest);
      ReadsDot(Dotted(tail) + rest);
    }
  }

  lemma NoNameNext(items: seq<Option<string>>, rest: seq<T.Tok>)
    requires items == [] ==> !Peek(rest).Ident?
    ensures !Peek(Dotted(items) + rest).Ident?
  {
    assert items == [] ==> Dotted(items) + rest == rest;
  }

  lemma ReadsChain(root: string, items: seq<Option<string>>, rest: seq<T.Tok>)
    requires !Peek(rest).Dot? && (items != [] && items[|items| - 1].None? ==> !Peek(rest).Ident?)
    ensures RPrimary(Yield(Chain(root, items)) + rest) == Reading(Chain(root, items), rest)
  {
    assert (Yield(Chain(root, items)) + rest)[1..] == Dotted(items) + rest;
    ReadsItems(items, rest);
  }

  lemma ReadsParen(x: Expr, rest: seq<T.Tok>)
    requires ROr(Yield(x) + ([T.RP] + rest)) == Reading(x, [T.RP] + rest)
    ensures RPrimary(Yield(Paren(x)) + rest) == Reading(Paren(x), rest)
  {
    assert (Yield(Paren(x)) + rest)[1..] == Yield(x) + ([T.RP] + rest);
    assert ([T.RP] + rest)[1..] == rest;
  }

  lemma ReadsOpen(x: Expr, rest: seq<T.Tok>)
    requires ROr(Yield(x) + rest) == Reading(x, rest) && !Peek(rest).RP?
    ensures RPrimary(Yield(Open(x)) + rest) == Reading(Open(x), rest)
  {
    assert (Yield(Open(x)) + rest)[1..] == Yield(x) + rest;
  }

  /** Level 4: a literal, an access, or anything in parentheses. */
  lemma {:induction false} ReadsPrimary(e: Expr, rest: seq<T.Tok>)
    requires Phrase(e, 3, Peek(rest)) && Level(e) == 4
    ensures RPrimary(Yield(e) + rest) == Reading(e, rest) && !Peek(Yield(e) + rest).Not?
    decreases e, 0
  {
    var ts := Yield(e) + rest;
    match e {
      case StrLit(_) => assert ts[1..] == rest;
      case Stray(_) => assert ts[1..] == rest;
      case Missing => assert ts == rest;
      case Chain(root, items) => ReadsChain(root, items, rest);
      case Paren(x) =>
        ReadsOr(x, [T.RP] + rest);
        ReadsParen(x, rest);
      case Open(x) =>
        ReadsOr(x, rest);
        ReadsOpen(x, rest);
    }
  }

  /** Level 3 */
  lemma {:induction false} ReadsUnary(e: Expr, rest: seq<T.Tok>)
    requires Phrase(e, 3, Peek(rest))
    ensures RUnary(Yield(e) + rest) == Reading(e, rest)
    decreases e, 1
  {
    if e.Not? {
      assert Yield(e) + rest == [T.Not] + (Yield(e.e) + rest);
      assert (Yield(e) + rest)[1..] == Yield(e.e) + rest;
      ReadsUnary(e.e, rest);
    } else {
      ReadsPrimary(e, rest);
    }
  }

  /** Level 2 */
  lemma {:induction false} ReadsCmp(e: Expr, rest: seq<T.Tok>)
    requires Phrase(e, 2, Peek(rest))
    ensures RCmp(Yield(e) + rest) == Reading(e, rest)
    decreases e, 2
  {
    if e.Cmp? {
      var tail := [e.op] + (Yield(e.r) + rest);
      assert Yield(e) + rest == Yield(e.l) + tail && tail[1..] == Yield(e.r) + rest;
      ReadsUnary(e.l, tail);
      ReadsUnary(e.r, rest);
    } else {
      ReadsUnary(e, rest);
    }
  }

  /** Level 1, up to the loop: what is read is a first operand for what follows. */
  lemma {:induction false} ReadsAndPart(e: Expr, rest: seq<T.Tok>)
    requires Phrase(e, 1, Peek(rest))
    ensures RAnd(Yield(e) + rest) == RAndLoop(e, rest)
    decreases e, 3
  {
    if e.And? {
      var tail := [T.And] + (Yield(e.r) + rest);
      assert Yield(e) + rest == Yield(e.l) + tail && tail[1..] == Yield(e.r) + rest;
      ReadsAndPart(e.l, tail);
      ReadsCmp(e.r, rest);
    } else {
      ReadsCmp(e, rest);
    }
  }

  /** Level 0, up to the loop. */
  lemma {:induction false} ReadsOrPart(e: Expr, rest: seq<T.Tok>)
    requires Phrase(e, 0, Peek(rest))
    ensures ROr(Yield(e) + rest) == ROrLoop(e, rest)
    decreases e, 4
  {
    if e.Or? {
      var tail := [T.Or] + (Yield(e.r) + rest);
      assert Yield(e) + rest == Yield(e.l) + tail && tail[1..] == Yield(e.r) + rest;
      ReadsOrPart(e.l, tail);
      ReadsAndPart(e.r, rest);
    } else {
      ReadsAndPart(e, rest);
    }
  }

  /** A whole expression is read as itself, and exactly its tokens are consumed. */
  lemma {:induction false} ReadsOr(e: Expr, rest: seq<T.Tok>)
    requires Whole(e, Peek(rest))
    ensures ROr(Yield(e) + rest) == Reading(e, rest)
    decreases e, 5
  {
    ReadsOrPart(e, rest);
  }

  // ----- any text -----

  /** The tree that a text is read as. */
  function ReadAs(text: string): Expr {
    ROr(T.Lex(text)).e
  }

  /** The tokens of the text begin with those of the tree, and there is no other choice. */
  predicate ReadsTo(text: string, e: Expr, rest: seq<T.Tok>) {
    T.Lex(text) == Yield(e) + rest && Whole(e, Peek(rest))
  }

  /** Every text, well-formed or not, begins with the tokens of exactly one tree, and evaluating it is the truth of
      that tree, whoever asks. */
  lemma AnyTextEvaluates(text: string, env: Env)
    ensures EvalExpr(text, env) == Truthy(Denote(ReadAs(text), env))
    ensures ReadsTo(text, ReadAs(text), ROr(T.Lex(text)).rest)
    ensures forall e, rest | ReadsTo(text, e, rest) :: e == ReadAs(text)
  {
    AgreesOr(T.Lex(text), env);
    YieldsOr(T.Lex(text));
    forall e, rest | ReadsTo(text, e, rest)
      ensures e == ReadAs(text)
    {
      ReadsOr(e, rest);
    }
  }

  /** Evaluator correctness: for every derivation of the grammar, however its tokens are laid out, the text is read
      as that tree and to its end, and evaluating it is the truth of the meaning. */
  lemma EvaluatesMeaning(e: Expr, pieces: seq<T.Piece>, tail: string, env: Env)
    requires Derivation(e) && T.LaidOut(pieces, tail) && T.Toks(pieces) == Yield(e)
    ensures ReadAs(T.Text(pieces, tail)) == e
    ensures EvalExpr(T.Text(pieces, tail), env) == Truthy(Denote(e, env))
    ensures POr(T.Lex(T.Text(pieces, tail)), env).rest == [T.EOF]
  {
    T.LexLayout(pieces, tail);
    CleanPhrase(e, 0, T.EOF);
    ReadsOr(e, [T.EOF]);
    AgreesOr(T.Lex(T.Text(pieces, tail)), env);
  }

  /** The same for a text that is known to be some layout of the tree. */
  lemma WrittenEvaluates(e: Expr, s: string, env: Env)
    requires Derivation(e) && T.Writes(s, Yield(e))
    ensures EvalExpr(s, env) == Truthy(Denote(e, env))
  {
    var pieces :| T.LaidOut(pieces, "") && T.Text(pieces, "") == s && T.Toks(pieces) == Yield(e);
    EvaluatesMeaning(e, pieces, "", env);
  }

  // ----- which texts are well-formed -----

  /** The text is some layout of the tokens of some derivation of the grammar. */
  ghost predicate WellFormed(text: string) {
    exists e, pieces, tail ::
      Derivation(e) && T.LaidOut(pieces, tail) && T.Toks(pieces) == Yield(e) && T.Text(pieces, tail) == text
  }

  /** The same, as a check of the text: every character belongs to a token, the tree it is read as is of the
      grammar, and no token is left over. */
  predicate Checks(text: string) {
    T.Neat(text) && Clean(ReadAs(text)) && T.Lex(text) == Yield(ReadAs(text)) + [T.EOF]
  }

  /** No text is a layout of two derivations: the grammar is not ambiguous. */
  lemma Unambiguous(d: Expr, e: Expr)
    requires Derivation(d) && Derivation(e) && Yield(d) == Yield(e)
    ensures d == e
  {
    CleanPhrase(d, 0, T.EOF);
    CleanPhrase(e, 0, T.EOF);
    ReadsOr(d, [T.EOF]);
    ReadsOr(e, [T.EOF]);
  }

  lemma WellFormedExact(text: string)
    ensures WellFormed(text) <==> Checks(text)
  {
    if WellFormed(text) {
      var e, pieces, tail :|
        Derivation(e) && T.LaidOut(pieces, tail) && T.Toks(pieces) == Yield(e) && T.Text(pieces, tail) == text;
      T.LayoutNeat(pieces, tail);
      T.LexLayout(pieces, tail);
      CleanPhrase(e, 0, T.EOF);
      ReadsOr(e, [T.EOF]);
    }
    if Checks(text) {
      var e := ReadAs(text);
      var pieces, tail := T.NeatLayout(text);
      T.LexLayout(pieces, tail);
      assert T.Toks(pieces) == Yield(e) by {
        assert (T.Toks(pieces) + [T.EOF])[..|T.Toks(pieces)|] == T.Toks(pieces);
        assert (Yield(e) + [T.EOF])[..|Yield(e)|] == Yield(e);
      }
      YieldsOr(T.Lex(text));
      PhraseShaped(e, 0, Peek(ROr(T.Lex(text)).rest));
    }
  }

  /** The keywords are literals, and have no members. */
  lemma KeywordMembers(text: string, keyword: string, member: string)
    requires keyword == "true" || keyword == "false" || keyword == "null"
    requires T.Lex(text) == [T.Ident(keyword), T.Dot, T.Ident(member)] + [T.EOF]
    ensures !WellFormed(text)
  {
    var e := Chain(keyword, [Some(member)]);
    assert Dotted(e.items) == [T.Dot, T.Ident(member)] by { assert e.items[1..] == []; }
    assert Yield(e) == [T.Ident(keyword), T.Dot, T.Ident(member)];
    ReadsOr(e, [T.EOF]);
    WellFormedExact(text);
  }

  // ----- printed text -----

  predicate Printable(e: Expr) {
    match e
    case StrLit(s) => '"' !in s || '\'' !in s
    case Chain(root, items) =>
      T.IsIdent(root) && forall i | 0 <= i < |items| :: items[i].Some? ==> T.IsIdent(items[i].value)
    case Paren(x) => Printable(x)
    case Not(x) => Printable(x)
    case Cmp(op, l, r) => T.Writable(op) && Printable(l) && Printable(r)
    case And(l, r) => Printable(l) && Printable(r)
    case Or(l, r) => Printable(l) && Printable(r)
    case Missing => true
    case Stray(t) => T.Writable(t)
    case Open(x) => Printable(x)
  }

  predicate AllWritable(toks: seq<T.Tok>) {
    forall i | 0 <= i < |toks| :: T.Writable(toks[i])
  }

  lemma {:induction false} DottedWritable(items: seq<Option<string>>)
    requires forall i | 0 <= i < |items| :: items[i].Some? ==> T.IsIdent(items[i].value)
    ensures AllWritable(Dotted(items))
    decreases |items|
  {
    if items != [] {
      DottedWritable(items[1..]);
    }
  }

  lemma Glued(a: seq<T.Tok>, t: T.Tok, b: seq<T.Tok>)
    requires AllWritable(a) && T.Writable(t) && AllWritable(b)
    ensures AllWritable(a + [t] + b)
  {
  }

  lemma {:induction false} YieldWritable(e: Expr)
    requires Printable(e)
    ensures AllWritable(Yield(e))
  {
    match e {
      case Chain(_, items) => DottedWritable(items);
      case Paren(x) => YieldWritable(x);
      case Not(x) => YieldWritable(x);
      case Cmp(op, l, r) => YieldWritable(l); YieldWritable(r); Glued(Yield(l), op, Yield(r));
      case And(l, r) => YieldWritable(l); YieldWritable(r); Glued(Yield(l), T.And, Yield(r));
      case Or(l, r) => YieldWritable(l); YieldWritable(r); Glued(Yield(l), T.Or, Yield(r));
      case Open(x) => YieldWritable(x);
      case _ =>
    }
  }

  lemma {:induction false} ParensPrintable(e: Expr, p: nat)
    requires Printable(e)
    ensures Printable(Parens(e, p))
    decreases e, if Level(e) < p then 1 else 0
  {
    if Level(e) < p {
      ParensPrintable(e, Level(e));
    } else {
      match e {
        case Paren(x) => ParensPrintable(x, 0);
        case Open(x) => ParensPrintable(x, 0);
        case Not(x) => ParensPrintable(x, 3);
        case Cmp(_, l, r) => ParensPrintable(l, 3); ParensPrintable(r, 3);
        case And(l, r) => ParensPrintable(l, 1); ParensPrintable(r, 2);
        case Or(l, r) => ParensPrintable(l, 0); ParensPrintable(r, 1);
        case _ =>
      }
    }
  }

  /** The text of an expression with parentheses by precedence, a space before each token. */
  function PrintText(e: Expr): string
    requires Printable(e)
  {
    ParensPrintable(e, 0);
    YieldWritable(Parens(e, 0));
    T.Text(T.Spaced(Yield(Parens(e, 0))), "")
  }

  /** Evaluating the printed text of an expression gives the truth of its meaning. */
  lemma PrintedEvaluates(e: Expr, env: Env)
    requires Clean(e) && Printable(e)
    ensures EvalExpr(PrintText(e), env) == Truthy(Denote(e, env))
  {
    var d := Parens(e, 0);
    ParensDerive(e, 0, env);
    ParensPrintable(e, 0);
    YieldWritable(d);
    T.SpacedLaidOut(Yield(d));
    EvaluatesMeaning(d, T.Spaced(Yield(d)), "", env);
  }
}
