/** The evaluator of rule expressions: a recursive-descent parser that computes values as it goes.

    The functions below take the tokens still to be read and give the value and the tokens left; the class is
    the program's parser with its cursor. */
module Evaluator {
  import opened Tokenizer

  datatype Value = VNull | VBool(b: bool) | VStr(s: string)

  datatype AuthCtx = AuthCtx(uid: string, email: string, authed: bool)

  type Vars = map<string, string>

  datatype Env = Env(auth: AuthCtx, vars: Vars)

  predicate Truthy(v: Value) {
    (v.VBool? && v.b) || (v.VStr? && v.s != "")
  }

  function Resolve(chain: seq<string>, env: Env): Value
    requires chain != []
  {
    if chain[0] == "true" then VBool(true)
    else if chain[0] == "false" then VBool(false)
    else if chain[0] == "null" then VNull
    else if chain[0] == "auth" then
      if !env.auth.authed then VNull
      else if |chain| == 1 then VStr("__auth__")
      else if chain[1] == "uid" then VStr(env.auth.uid)
      else if chain[1] == "email" then VStr(env.auth.email)
      else VNull
    else if chain[0] != "" && chain[0][0] == '$' && chain[0] in env.vars then VStr(env.vars[chain[0]])
    else VNull
  }

  function Peek(ts: seq<Tok>): Tok {
    if ts == [] then EOF else ts[0]
  }

  datatype Res = Res(v: Value, rest: seq<Tok>)

  function POr(ts: seq<Tok>, env: Env): (r: Res)
    ensures |r.rest| <= |ts|
    decreases |ts|, 7
  {
    var a := PAnd(ts, env);
    POrLoop(a.v, a.rest, env)
  }

  function POrLoop(v: Value, ts: seq<Tok>, env: Env): (r: Res)
    ensures |r.rest| <= |ts|
    decreases |ts|, 6
  {
    if Peek(ts).Or? then
      var a := PAnd(ts[1..], env);
      POrLoop(VBool(Truthy(v) || Truthy(a.v)), a.rest, env)
    else Res(v, ts)
  }

  function PAnd(ts: seq<Tok>, env: Env): (r: Res)
    ensures |r.rest| <= |ts|
    decreases |ts|, 5
  {
    var a := PCmp(ts, env);
    PAndLoop(a.v, a.rest, env)
  }

  function PAndLoop(v: Value, ts: seq<Tok>, env: Env): (r: Res)
    ensures |r.rest| <= |ts|
    decreases |ts|, 4
  {
    if Peek(ts).And? then
      var a := PCmp(ts[1..], env);
      PAndLoop(VBool(Truthy(v) && Truthy(a.v)), a.rest, env)
    else Res(v, ts)
  }

  function PCmp(ts: seq<Tok>, env: Env): (r: Res)
    ensures |r.rest| <= |ts|
    decreases |ts|, 3
  {
    var a := PUnary(ts, env);
    if Peek(a.rest).Eq? || Peek(a.rest).Neq? then
      var b := PUnary(a.rest[1..], env);
      Res(VBool((a.v == b.v) == Peek(a.rest).Eq?), b.rest)
    else a
  }

  function PUnary(ts: seq<Tok>, env: Env): (r: Res)
    ensures |r.rest| <= |ts|
    decreases |ts|, 2
  {
    if Peek(ts).Not? then
      var a := PUnary(ts[1..], env);
      Res(VBool(!Truthy(a.v)), a.rest)
    else PPrimary(ts, env)
  }

  function PPrimary(ts: seq<Tok>, env: Env): (r: Res)
    ensures |r.rest| <= |ts|
    decreases |ts|, 1
  {
    var t := Peek(ts);
    if t.EOF? then Res(VNull, ts)
    else if t.LP? then
      var a := POr(ts[1..], env);
      if Peek(a.rest).RP? then Res(a.v, a.rest[1..]) else a
    else if t.Str? then Res(VStr(t.val), ts[1..])
    else if t.Ident? then PChain([t.val], ts[1..], env)
    else Res(VNull, ts[1..])
  }

  function PChain(chain: seq<string>, ts: seq<Tok>, env: Env): (r: Res)
    requires chain != []
    ensures |r.rest| <= |ts|
    decreases |ts|
  {
    if Peek(ts).Dot? then
      if Peek(ts[1..]).Ident? then PChain(chain + [ts[1].val], ts[2..], env)
      else PChain(chain, ts[1..], env)
    else Res(Resolve(chain, env), ts)
  }

  function EvalExpr(expr: string, env: Env): bool {
    Truthy(POr(Lex(expr), env).v)
  }

  // ----- the program -----

  class EvalParser {
    const toks: seq<Tok>
    var pos: nat
    const env: Env

    ghost predicate Valid()
      reads this
    {
      pos <= |toks|
    }

    ghost function Rest(): seq<Tok>
      requires Valid()
      reads this
    {
      toks[pos..]
    }

    constructor (toks: seq<Tok>, env: Env)
      ensures Valid() && Rest() == toks && this.env == env
    {
      this.toks, this.pos, this.env := toks, 0, env;
    }

    function PeekTok(): (t: Tok)
      requires Valid()
      reads this
      ensures t == Peek(Rest())
    {
      if pos >= |toks| then EOF else toks[pos]
    }

    method NextTok() returns (t: Tok)
      requires Valid()
      modifies `pos
      ensures Valid() && t == Peek(old(Rest())) && pos >= old(pos)
      ensures Rest() == if t.EOF? then old(Rest()) else old(Rest())[1..]
    {
      t := PeekTok();
      if !t.EOF? {
        pos := pos + 1;
      }
    }

    method ParseOr() returns (v: Value)
      requires Valid()
      modifies `pos
      ensures Valid() && pos >= old(pos)
      ensures Res(v, Rest()) == POr(old(Rest()), env)
      decreases |toks| - pos, 5
    {
      ghost var result := POr(Rest(), env);
      v := ParseAnd();
      while PeekTok().Or?
        invariant Valid() && pos >= old(pos)
        invariant POrLoop(v, Rest(), env) == result
        decreases |toks| - pos
      {
        ghost var v0, ts := v, Rest();
        var op := NextTok();
        var r := ParseAnd();
        v := VBool(Truthy(v) || Truthy(r));
        assert POrLoop(v0, ts, env) == POrLoop(v, Rest(), env);
      }
    }

    method ParseAnd() returns (v: Value)
      requires Valid()
      modifies `pos
      ensures Valid() && pos >= old(pos)
      ensures Res(v, Rest()) == PAnd(old(Rest()), env)
      decreases |toks| - pos, 4
    {
      ghost var result := PAnd(Rest(), env);
      v := ParseCmp();
      while PeekTok().And?
        invariant Valid() && pos >= old(pos)
        invariant PAndLoop(v, Rest(), env) == result
        decreases |toks| - pos
      {
        ghost var v0, ts := v, Rest();
        var op := NextTok();
        var r := ParseCmp();
        v := VBool(Truthy(v) && Truthy(r));
        assert PAndLoop(v0, ts, env) == PAndLoop(v, Rest(), env);
      }
    }

    method ParseCmp() returns (v: Value)
      requires Valid()
      modifies `pos
      ensures Valid() && pos >= old(pos)
      ensures Res(v, Rest()) == PCmp(old(Rest()), env)
      decreases |toks| - pos, 3
    {
      v := ParseUnary();
      if PeekTok().Eq? || PeekTok().Neq? {
        var op := NextTok();
        var r := ParseUnary();
        var eq := v == r;
        v := if op.Eq? then VBool(eq) else VBool(!eq);
      }
    }

    method ParseUnary() returns (v: Value)
      requires Valid()
      modifies `pos
      ensures Valid() && pos >= old(pos)
      ensures Res(v, Rest()) == PUnary(old(Rest()), env)
      decreases |toks| - pos, 2
    {
      if PeekTok().Not? {
        var op := NextTok();
        v := ParseUnary();
        v := VBool(!Truthy(v));
      } else {
        v := ParsePrimary();
      }
    }

    method ParsePrimary() returns (v: Value)
      requires Valid()
      modifies `pos
      ensures Valid() && pos >= old(pos)
      ensures Res(v, Rest()) == PPrimary(old(Rest()), env)
      decreases |toks| - pos, 1
    {
      if PeekTok().LP? {
        var lp := NextTok();
        v := ParseOr();
        if PeekTok().RP? {
          var rp := NextTok();
        }
        return;
      }
      var t := NextTok();
      if t.Str? {
        return VStr(t.val);
      }
      if !t.Ident? {
        return VNull;
      }
      var chain := [t.val];
      ghost var start := Rest();
      while PeekTok().Dot?
        invariant Valid() && pos >= old(pos) && chain != []
        invariant PChain(chain, Rest(), env) == PChain([t.val], start, env)
        decreases |toks| - pos
      {
        var dot := NextTok();
        if PeekTok().Ident? {
          var part := NextTok();
          chain := chain + [part.val];
        }
      }
      v := Resolve(chain, env);
    }
  }

  method EvalText(expr: string, env: Env) returns (granted: bool)
    ensures granted == EvalExpr(expr, env)
  {
    var toks := Tokenize(expr);
    var p := new EvalParser(toks, env);
    var v := p.ParseOr();
    granted := Truthy(v);
  }

  // ----- what holds for every input -----

  /** `rest` is what is left of `ts` after some tokens, none of them EOF, were read. */
  ghost predicate Read(ts: seq<Tok>, rest: seq<Tok>) {
    |rest| <= |ts| && rest == ts[|ts| - |rest|..] && EOF !in ts[..|ts| - |rest|]
  }

  lemma ReadTwice(a: seq<Tok>, b: seq<Tok>, c: seq<Tok>)
    requires Read(a, b) && Read(b, c)
    ensures Read(a, c)
  {
    var n, m := |a| - |b|, |b| - |c|;
    assert a[..n + m] == a[..n] + b[..m];
  }

  lemma {:induction false} ReadByOr(ts: seq<Tok>, env: Env)
    ensures Read(ts, POr(ts, env).rest)
    decreases |ts|, 7
  {
    var a := PAnd(ts, env);
    ReadByAnd(ts, env);
    ReadByOrLoop(a.v, a.rest, env);
    ReadTwice(ts, a.rest, POrLoop(a.v, a.rest, env).rest);
  }

  lemma {:induction false} ReadByOrLoop(v: Value, ts: seq<Tok>, env: Env)
    ensures Read(ts, POrLoop(v, ts, env).rest)
    decreases |ts|, 6
  {
    if Peek(ts).Or? {
      var a := PAnd(ts[1..], env);
      var w := VBool(Truthy(v) || Truthy(a.v));
      ReadByAnd(ts[1..], env);
      ReadTwice(ts, ts[1..], a.rest);
      ReadByOrLoop(w, a.rest, env);
      ReadTwice(ts, a.rest, POrLoop(w, a.rest, env).rest);
    }
  }

  lemma {:induction false} ReadByAnd(ts: seq<Tok>, env: Env)
    ensures Read(ts, PAnd(ts, env).rest)
    decreases |ts|, 5
  {
    var a := PCmp(ts, env);
    ReadByCmp(ts, env);
    ReadByAndLoop(a.v, a.rest, env);
    ReadTwice(ts, a.rest, PAndLoop(a.v, a.rest, env).rest);
  }

  lemma {:induction false} ReadByAndLoop(v: Value, ts: seq<Tok>, env: Env)
    ensures Read(ts, PAndLoop(v, ts, env).rest)
    decreases |ts|, 4
  {
    if Peek(ts).And? {
      var a := PCmp(ts[1..], env);
      var w := VBool(Truthy(v) && Truthy(a.v));
      ReadByCmp(ts[1..], env);
      ReadTwice(ts, ts[1..], a.rest);
      ReadByAndLoop(w, a.rest, env);
      ReadTwice(ts, a.rest, PAndLoop(w, a.rest, env).rest);
    }
  }

  lemma {:induction false} ReadByCmp(ts: seq<Tok>, env: Env)
    ensures Read(ts, PCmp(ts, env).rest)
    decreases |ts|, 3
  {
    var a := PUnary(ts, env);
    ReadByUnary(ts, env);
    if Peek(a.rest).Eq? || Peek(a.rest).Neq? {
      ReadTwice(ts, a.rest, a.rest[1..]);
      ReadByUnary(a.rest[1..], env);
      ReadTwice(ts, a.rest[1..], PUnary(a.rest[1..], env).rest);
    }
  }

  lemma {:induction false} ReadByUnary(ts: seq<Tok>, env: Env)
    ensures Read(ts, PUnary(ts, env).rest)
    decreases |ts|, 2
  {
    if Peek(ts).Not? {
      ReadByUnary(ts[1..], env);
      ReadTwice(ts, ts[1..], PUnary(ts[1..], env).rest);
    } else {
      ReadByPrimary(ts, env);
    }
  }

  lemma {:induction false} ReadByPrimary(ts: seq<Tok>, env: Env)
    ensures Read(ts, PPrimary(ts, env).rest)
    decreases |ts|, 1
  {
    var t := Peek(ts);
    if t.LP? {
      var a := POr(ts[1..], env);
      ReadByOr(ts[1..], env);
      ReadTwice(ts, ts[1..], a.rest);
      if Peek(a.rest).RP? {
        ReadTwice(ts, a.rest, a.rest[1..]);
      }
    } else if t.Ident? {
      ReadByChain([t.val], ts[1..], env);
      ReadTwice(ts, ts[1..], PChain([t.val], ts[1..], env).rest);
    }
  }

  lemma {:induction false} ReadByChain(chain: seq<string>, ts: seq<Tok>, env: Env)
    requires chain != []
    ensures Read(ts, PChain(chain, ts, env).rest)
    decreases |ts|
  {
    if Peek(ts).Dot? {
      if Peek(ts[1..]).Ident? {
        assert ts[..2] == [ts[0], ts[1]];
        ReadByChain(chain + [ts[1].val], ts[2..], env);
        ReadTwice(ts, ts[2..], PChain(chain + [ts[1].val], ts[2..], env).rest);
      } else {
        ReadByChain(chain, ts[1..], env);
        ReadTwice(ts, ts[1..], PChain(chain, ts[1..], env).rest);
      }
    }
  }

  lemma LastIsLeft(ts: seq<Tok>, rest: seq<Tok>)
    requires ts != [] && ts[|ts| - 1] == EOF && Read(ts, rest)
    ensures rest != [] && rest[|rest| - 1] == EOF
  {
    assert ts[..|ts|] == ts && EOF in ts;
  }

  /** Parsing any text ends at or before its EOF token, having read none. */
  lemma StopsAtEOF(expr: string, env: Env)
    ensures var r := POr(Lex(expr), env);
      Read(Lex(expr), r.rest) && r.rest != [] && r.rest[|r.rest| - 1] == EOF
  {
    LexEnds(expr);
    ReadByOr(Lex(expr), env);
    LastIsLeft(Lex(expr), POr(Lex(expr), env).rest);
  }
}
