/** The tokenizer of rule expressions.  A text is a string of bytes, one per character. */
module Tokenizer {
  datatype Tok =
    | EOF
    | Ident(val: string)
    | Dot
    | Str(val: string)
    | Eq(val: string)
    | Neq(val: string)
    | And
    | Or
    | Not
    | LP
    | RP

  predicate IsSpace(c: char) {
    c == ' ' || c == '\t' || c == '\r' || c == '\n'
  }

  /** unicode.IsLetter on one byte */
  predicate IsLetter(c: char) {
    var n := c as int;
    65 <= n <= 90 || 97 <= n <= 122 || n == 0xAA || n == 0xB5 || n == 0xBA ||
    0xC0 <= n <= 0xD6 || 0xD8 <= n <= 0xF6 || 0xF8 <= n <= 0xFF
  }

  /** unicode.IsDigit on one byte */
  predicate IsDigit(c: char) {
    '0' <= c <= '9'
  }

  predicate IsIdentStart(c: char) {
    c == '$' || c == '_' || IsLetter(c)
  }

  predicate IsIdentPart(c: char) {
    IsIdentStart(c) || IsDigit(c)
  }

  /** How many characters come before the first `q`, or to the end. */
  function UpTo(s: string, q: char): (n: nat)
    ensures n <= |s| && q !in s[..n] && (n < |s| ==> s[n] == q)
  {
    if s == "" || s[0] == q then 0 else 1 + UpTo(s[1..], q)
  }

  /** How many identifier characters come first. */
  function IdentLength(s: string): (n: nat)
    ensures n <= |s| && (forall i | 0 <= i < n :: IsIdentPart(s[i])) && (n < |s| ==> !IsIdentPart(s[n]))
  {
    if s == "" || !IsIdentPart(s[0]) then 0 else 1 + IdentLength(s[1..])
  }

  /** The token at the start of a text, if one starts there, and how many characters it takes. */
  function First(s: string): (r: (seq<Tok>, nat))
    requires s != ""
    ensures 0 < r.1 <= |s| && |r.0| <= 1 && (r.0 != [] ==> r.0[0] != EOF)
  {
    var c := s[0];
    if IsSpace(c) then ([], 1)
    else if c == '(' then ([LP], 1)
    else if c == ')' then ([RP], 1)
    else if c == '.' then ([Dot], 1)
    else if c == '!' && 1 < |s| && s[1] == '=' then
      if 2 < |s| && s[2] == '=' then ([Neq("!==")], 3) else ([Neq("!=")], 2)
    else if c == '!' then ([Not], 1)
    else if c == '=' && 1 < |s| && s[1] == '=' then
      if 2 < |s| && s[2] == '=' then ([Eq("===")], 3) else ([Eq("==")], 2)
    else if c == '&' && 1 < |s| && s[1] == '&' then ([And], 2)
    else if c == '|' && 1 < |s| && s[1] == '|' then ([Or], 2)
    else if c == '"' || c == '\'' then
      var n := UpTo(s[1..], c);
      ([Str(s[1..][..n])], if n + 1 < |s| then n + 2 else n + 1)
    else if IsIdentStart(c) then
      var n := IdentLength(s);
      ([Ident(s[..n])], n)
    else ([], 1)
  }

  /** The tokens of a text. */
  function Lex(s: string): seq<Tok>
    decreases |s|
  {
    if s == "" then [EOF] else var (toks, n) := First(s); toks + Lex(s[n..])
  }

  /** For every text, well-formed or not, the tokens end with one EOF and have no other. */
  lemma {:induction false} LexEnds(s: string)
    ensures Lex(s) != [] && Lex(s)[|Lex(s)| - 1] == EOF
    ensures forall i | 0 <= i < |Lex(s)| - 1 :: Lex(s)[i] != EOF
    decreases |s|
  {
    if s != "" {
      var (toks, n) := First(s);
      LexEnds(s[n..]);
    }
  }

  lemma Regroup<X>(a: seq<X>, b: seq<X>, c: seq<X>)
    ensures a + (b + c) == a + b + c
  {
  }

  lemma LexFrom(s: string, i: nat, toks: seq<Tok>, next: nat)
    requires i < next <= |s| && (toks, next - i) == First(s[i..])
    ensures Lex(s[i..]) == toks + Lex(s[next..])
  {
    assert s[i..][next - i..] == s[next..];
  }

  /** The loop of the program. */
  method Tokenize(s: string) returns (out: seq<Tok>)
    ensures out == Lex(s)
  {
    out := [];
    var i := 0;
    while i < |s|
      invariant 0 <= i <= |s|
      invariant out + Lex(s[i..]) == Lex(s)
    {
      var toks, next := Scan(s, i);
      LexFrom(s, i, toks, next);
      Regroup(out, toks, Lex(s[next..]));
      out, i := out + toks, next;
    }
    out := out + [EOF];
  }

  /** The switch in the loop: what is appended, and the new index. */
  method Scan(s: string, i: nat) returns (toks: seq<Tok>, next: nat)
    requires i < |s|
    ensures i < next <= |s| && (toks, next - i) == First(s[i..])
  {
    ghost var r := s[i..];
    assert r[0] == s[i] && (1 < |r| ==> r[1] == s[i + 1]) && (2 < |r| ==> r[2] == s[i + 2]);
    var c := s[i];
    if c == ' ' || c == '\t' || c == '\r' || c == '\n' {
      toks, next := [], i + 1;
    } else if c == '(' {
      toks, next := [LP], i + 1;
    } else if c == ')' {
      toks, next := [RP], i + 1;
    } else if c == '.' {
      toks, next := [Dot], i + 1;
    } else if c == '!' && i + 1 < |s| && s[i + 1] == '=' {
      if i + 2 < |s| && s[i + 2] == '=' {
        toks, next := [Neq("!==")], i + 3;
      } else {
        toks, next := [Neq("!=")], i + 2;
      }
    } else if c == '!' {
      toks, next := [Not], i + 1;
    } else if c == '=' && i + 1 < |s| && s[i + 1] == '=' {
      if i + 2 < |s| && s[i + 2] == '=' {
        toks, next := [Eq("===")], i + 3;
      } else {
        toks, next := [Eq("==")], i + 2;
      }
    } else if c == '&' && i + 1 < |s| && s[i + 1] == '&' {
      toks, next := [And], i + 2;
    } else if c == '|' && i + 1 < |s| && s[i + 1] == '|' {
      toks, next := [Or], i + 2;
    } else if c == '"' || c == '\'' {
      toks, next := ScanString(s, i, c);
    } else if IsIdentStart(c) {
      var j := ScanIdent(s, i);
      assert r[..j - i] == s[i..j];
      toks, next := [Ident(s[i..j])], j;
    } else {
      toks, next := [], i + 1;
    }
  }

  /** A string, to its closing quote or to the end. */
  method ScanString(s: string, i: nat, q: char) returns (toks: seq<Tok>, next: nat)
    requires i < |s| && s[i] == q && (q == '"' || q == '\'')
    ensures i < next <= |s| && (toks, next - i) == First(s[i..])
  {
    ghost var r := s[i..];
    var j := ScanQuoted(s, i + 1, q);
    assert r[0] == q && r[1..] == s[i + 1..] && r[1..][..j - (i + 1)] == s[i + 1..j];
    toks := [Str(s[i + 1..j])];
    if j < |s| {
      j := j + 1;
    }
    next := j;
  }

  /** The loop over the characters of a quoted string. */
  method ScanQuoted(s: string, i: nat, q: char) returns (j: nat)
    requires i <= |s|
    ensures i <= j <= |s| && j - i == UpTo(s[i..], q)
  {
    j := i;
    while j < |s| && s[j] != q
      invariant i <= j <= |s|
      invariant UpTo(s[i..], q) == j - i + UpTo(s[j..], q)
    {
      assert s[j..][1..] == s[j + 1..];
      j := j + 1;
    }
  }

  /** The loop over the characters of an identifier. */
  method ScanIdent(s: string, i: nat) returns (j: nat)
    requires i <= |s|
    ensures i <= j <= |s| && j - i == IdentLength(s[i..])
  {
    j := i;
    while j < |s| && (s[j] == '$' || s[j] == '_' || IsLetter(s[j]) || IsDigit(s[j]))
      invariant i <= j <= |s|
      invariant IdentLength(s[i..]) == j - i + IdentLength(s[j..])
    {
      assert s[j..][1..] == s[j + 1..];
      j := j + 1;
    }
  }

  // ----- writing tokens down -----

  predicate IsIdent(s: string) {
    s != "" && IsIdentStart(s[0]) && forall i | 0 <= i < |s| :: IsIdentPart(s[i])
  }

  /** `w` is a way to write `t`; a string may be in either quote that it does not contain. */
  predicate Spells(t: Tok, w: string) {
    match t
    case EOF => false
    case Ident(v) => IsIdent(v) && w == v
    case Dot => w == "."
    case Str(v) => (w == "\"" + v + "\"" && '"' !in v) || (w == "'" + v + "'" && '\'' !in v)
    case Eq(v) => (v == "==" || v == "===") && w == v
    case Neq(v) => (v == "!=" || v == "!==") && w == v
    case And => w == "&&"
    case Or => w == "||"
    case Not => w == "!"
    case LP => w == "("
    case RP => w == ")"
  }

  /** What follows does not lengthen the token: an identifier by an identifier character, and `!`, `==`
      and `!=` by a `=`. */
  predicate Ends(t: Tok, rest: string) {
    rest != "" ==>
      && (t.Ident? ==> !IsIdentPart(rest[0]))
      && (t.Not? || t == Eq("==") || t == Neq("!=") ==> rest[0] != '=')
  }

  /** A token as written, and the white space before it. */
  datatype Piece = Piece(gap: string, tok: Tok, word: string)

  predicate Blank(s: string) {
    forall i | 0 <= i < |s| :: IsSpace(s[i])
  }

  function Text(pieces: seq<Piece>, tail: string): string {
    if pieces == [] then tail else pieces[0].gap + pieces[0].word + Text(pieces[1..], tail)
  }

  function Toks(pieces: seq<Piece>): seq<Tok> {
    if pieces == [] then [] else [pieces[0].tok] + Toks(pieces[1..])
  }

  /** Tokens laid out with white space before and between them, at least where one would run into the next. */
  predicate LaidOut(pieces: seq<Piece>, tail: string) {
    if pieces == [] then Blank(tail)
    else
      && Blank(pieces[0].gap)
      && Spells(pieces[0].tok, pieces[0].word)
      && Ends(pieces[0].tok, Text(pieces[1..], tail))
      && LaidOut(pieces[1..], tail)
  }

  lemma {:induction false} LexSkips(gap: string, rest: string)
    requires Blank(gap)
    ensures Lex(gap + rest) == Lex(rest)
    decreases |gap|
  {
    if gap == "" {
      assert gap + rest == rest;
    } else {
      assert (gap + rest)[1..] == gap[1..] + rest;
      LexSkips(gap[1..], rest);
    }
  }

  lemma {:induction false} UpToQuote(s: string, q: char, rest: string)
    requires q !in s
    ensures UpTo(s + [q] + rest, q) == |s|
  {
    if s == "" {
      assert (s + [q] + rest)[0] == q;
    } else {
      assert (s + [q] + rest)[1..] == s[1..] + [q] + rest;
      UpToQuote(s[1..], q, rest);
    }
  }

  lemma {:induction false} IdentWhole(s: string, rest: string)
    requires forall i | 0 <= i < |s| :: IsIdentPart(s[i])
    requires rest != "" ==> !IsIdentPart(rest[0])
    ensures IdentLength(s + rest) == |s|
  {
    if s == "" {
      assert s + rest == rest;
    } else {
      assert (s + rest)[1..] == s[1..] + rest;
      IdentWhole(s[1..], rest);
    }
  }

  lemma FirstQuoted(v: string, q: char, rest: string)
    requires (q == '"' || q == '\'') && q !in v
    ensures First([q] + v + [q] + rest) == ([Str(v)], |v| + 2)
  {
    var s := [q] + v + [q] + rest;
    assert s[1..] == v + [q] + rest;
    UpToQuote(v, q, rest);
    assert s[1..][..|v|] == v;
  }

  lemma FirstIdent(v: string, rest: string)
    requires IsIdent(v) && Ends(Ident(v), rest)
    ensures First(v + rest) == ([Ident(v)], |v|)
  {
    IdentWhole(v, rest);
    assert (v + rest)[..|v|] == v && (v + rest)[0] == v[0];
  }

  // ----- which texts are one name -----

  /** A letter, a digit, `_` or `$`; beyond ASCII, the letters of Latin-1, which are all from 0xC0 on but the signs of
      multiplication and division, the two ordinals and the micro sign. */
  predicate IsWordChar(c: char) {
    || 'a' <= c <= 'z' || 'A' <= c <= 'Z' || '0' <= c <= '9' || c == '_' || c == '$'
    || (0xC0 <= c as int && c as int != 0xD7 && c as int != 0xF7) || c as int in {0xAA, 0xB5, 0xBA}
  }

  lemma {:induction false} IdentTokens(s: string)
    ensures forall t | t in Lex(s) && t.Ident? :: IsIdent(t.val)
    decreases |s|
  {
    if s != "" {
      var (toks, n) := First(s);
      IdentTokens(s[n..]);
    }
  }

  /** The characters of which a name is made, and those it begins with. */
  predicate IsWord(s: string) {
    s != "" && !('0' <= s[0] <= '9') && forall i | 0 <= i < |s| :: IsWordChar(s[i])
  }

  lemma WordIdent(s: string)
    requires forall i | 0 <= i < |s| :: s[i] as int < 256
    ensures IsIdent(s) <==> IsWord(s)
  {
    assert forall i | 0 <= i < |s| :: IsIdentPart(s[i]) <==> IsWordChar(s[i]);
  }

  lemma IdentAlone(s: string)
    requires IsIdent(s)
    ensures Lex(s) == [Ident(s)] + Lex("")
  {
    FirstIdent(s, "");
    assert s + "" == s && s[|s|..] == "";
  }

  /** A text of bytes is one identifier exactly if it is not empty, has only letters, digits, `_` and `$`, and does not
      begin with a digit. */
  lemma OneName(s: string)
    requires forall i | 0 <= i < |s| :: s[i] as int < 256
    ensures Lex(s) == [Ident(s), EOF] <==> IsWord(s)
  {
    WordIdent(s);
    if IsWord(s) {
      IdentAlone(s);
    }
    if Lex(s) == [Ident(s), EOF] {
      IdentTokens(s);
      assert Ident(s) in Lex(s);
    }
  }

  // ----- what is no token -----

  /** A character of an operator that needs a second one. */
  predicate IsHalf(c: char) {
    c == '=' || c == '&' || c == '|'
  }

  /** No token begins with the character, whatever follows: it is none of a name, a string or an operator. */
  predicate IsOther(c: char) {
    !IsIdentStart(c) && !IsHalf(c) && c != '(' && c != ')' && c != '.' && c != '!' && c != '"' && c != '\''
  }

  lemma NoToken(c: char, s: string)
    requires s != "" && s[0] == c && (IsOther(c) || (IsHalf(c) && (|s| > 1 ==> s[1] != c)))
    ensures First(s) == ([], 1)
  {
  }

  /** Such characters, white space and digits among them, are passed over; and so is a single `=`, `&` or `|`. */
  lemma PassedOver(c: char, rest: string)
    requires IsOther(c) || (IsHalf(c) && (rest != "" ==> rest[0] != c))
    ensures Lex([c] + rest) == Lex(rest)
  {
    var s := [c] + rest;
    NoToken(c, s);
    assert s[1..] == rest;
  }

  lemma FirstUnclosed(q: char, v: string, s: string)
    requires (q == '"' || q == '\'') && q !in v && s == [q] + v
    ensures First(s) == ([Str(v)], |s|)
  {
    assert s[1..] == v;
    UpToEnd(v, q);
    assert v[..|v|] == v;
  }

  /** A string that is not closed goes to the end of the text. */
  lemma UnclosedString(q: char, v: string)
    requires (q == '"' || q == '\'') && q !in v
    ensures Lex([q] + v) == [Str(v), EOF]
  {
    var s := [q] + v;
    FirstUnclosed(q, v, s);
    assert s[|s|..] == "";
  }

  lemma {:induction false} UpToEnd(s: string, q: char)
    requires q !in s
    ensures UpTo(s, q) == |s|
  {
    if s != "" {
      UpToEnd(s[1..], q);
    }
  }

  lemma FirstStr(v: string, w: string, rest: string)
    requires Spells(Str(v), w)
    ensures w != "" && First(w + rest) == ([Str(v)], |w|)
  {
    if w == "\"" + v + "\"" && '"' !in v {
      FirstQuoted(v, '"', rest);
      assert w + rest == ['"'] + v + ['"'] + rest;
    } else {
      FirstQuoted(v, '\'', rest);
      assert w + rest == ['\''] + v + ['\''] + rest;
    }
  }

  lemma FirstSign(t: Tok, w: string, rest: string)
    requires Spells(t, w) && Ends(t, rest) && !t.Ident? && !t.Str?
    ensures w != "" && First(w + rest) == ([t], |w|)
  {
    assert forall i | 0 <= i < |w| :: (w + rest)[i] == w[i];
    assert rest != "" ==> (w + rest)[|w|] == rest[0];
  }

  lemma FirstWord(t: Tok, w: string, rest: string)
    requires Spells(t, w) && Ends(t, rest)
    ensures w != "" && First(w + rest) == ([t], |w|)
  {
    match t {
      case Ident(v) => FirstIdent(v, rest);
      case Str(v) => FirstStr(v, w, rest);
      case _ => FirstSign(t, w, rest);
    }
  }

  /** Round trip: tokens written down with any layout are read back. */
  lemma {:induction false} LexLayout(pieces: seq<Piece>, tail: string)
    requires LaidOut(pieces, tail)
    ensures Lex(Text(pieces, tail)) == Toks(pieces) + [EOF]
    decreases |pieces|
  {
    if pieces == [] {
      LexSkips(tail, "");
      assert tail + "" == tail;
    } else {
      var p, rest := pieces[0], Text(pieces[1..], tail);
      LexLayout(pieces[1..], tail);
      FirstWord(p.tok, p.word, rest);
      LexSkips(p.gap, p.word + rest);
      assert p.gap + p.word + rest == p.gap + (p.word + rest);
      assert (p.word + rest)[|p.word|..] == rest;
    }
  }

  /** `s` is the tokens `toks`, laid out. */
  ghost predicate Writes(s: string, toks: seq<Tok>) {
    exists pieces :: LaidOut(pieces, "") && Text(pieces, "") == s && Toks(pieces) == toks
  }

  lemma WritesNothing()
    ensures Writes("", [])
  {
    assert LaidOut([], "") && Text([], "") == "" && Toks([]) == [];
  }

  /** One more token in front. */
  lemma WritesMore(gap: string, t: Tok, w: string, s: string, toks: seq<Tok>)
    requires Writes(s, toks) && Blank(gap) && Spells(t, w) && Ends(t, s)
    ensures Writes(gap + w + s, [t] + toks)
  {
    var pieces :| LaidOut(pieces, "") && Text(pieces, "") == s && Toks(pieces) == toks;
    var more := [Piece(gap, t, w)] + pieces;
    assert more[1..] == pieces;
    assert LaidOut(more, "") && Text(more, "") == gap + w + s && Toks(more) == [t] + toks;
  }

  lemma WritesNext(t: Tok, w: string, s: string, toks: seq<Tok>)
    requires Writes(s, toks) && Spells(t, w) && Ends(t, s)
    ensures Writes(w + s, [t] + toks)
  {
    WritesMore("", t, w, s, toks);
    assert "" + w == w;
  }

  // ----- texts that are tokens laid out -----

  /** The text starts with white space or with a whole token: no character that belongs to none, and no string
      without its closing quote. */
  predicate NeatStart(s: string)
    requires s != ""
  {
    var (toks, n) := First(s);
    if toks == [] then IsSpace(s[0]) else toks[0].Str? ==> n == |toks[0].val| + 2
  }

  /** The text is tokens and white space throughout. */
  predicate Neat(s: string)
    decreases |s|
  {
    s == "" || (NeatStart(s) && Neat(s[First(s).1..]))
  }

  lemma StartSpells(s: string)
    requires s != "" && NeatStart(s) && First(s).0 != []
    ensures var (toks, n) := First(s); Spells(toks[0], s[..n]) && Ends(toks[0], s[n..])
  {
    var (toks, n) := First(s);
    var t := toks[0];
    if t.Str? {
      assert s[1..][..n - 2] == t.val && s[1..][n - 2] == s[0];
      assert s[..n] == [s[0]] + t.val + [s[0]];
    } else if t.Ident? {
      assert IsIdentPart(s[0]) && n == IdentLength(s);
    }
  }

  /** A neat text is a layout of its tokens. */
  lemma {:induction false} NeatLayout(s: string) returns (pieces: seq<Piece>, tail: string)
    requires Neat(s)
    ensures LaidOut(pieces, tail) && Text(pieces, tail) == s
    decreases |s|
  {
    pieces, tail := [], "";
    if s != "" {
      var (toks, n) := First(s);
      pieces, tail := NeatLayout(s[n..]);
      if toks != [] {
        pieces := TokenInFront(s, pieces, tail);
      } else if pieces == [] {
        tail := [s[0]] + tail;
      } else {
        pieces := WiderGap(s[0], pieces, tail);
      }
    }
  }

  lemma TokenInFront(s: string, pieces: seq<Piece>, tail: string) returns (more: seq<Piece>)
    requires s != "" && NeatStart(s) && First(s).0 != []
    requires LaidOut(pieces, tail) && Text(pieces, tail) == s[First(s).1..]
    ensures LaidOut(more, tail) && Text(more, tail) == s
  {
    var (toks, n) := First(s);
    more := [Piece("", toks[0], s[..n])] + pieces;
    StartSpells(s);
    assert more[1..] == pieces && s == "" + s[..n] + s[n..];
  }

  /** One more space at the start. */
  lemma WiderGap(c: char, pieces: seq<Piece>, tail: string) returns (wider: seq<Piece>)
    requires IsSpace(c) && pieces != [] && LaidOut(pieces, tail)
    ensures wider != [] && LaidOut(wider, tail) && Text(wider, tail) == [c] + Text(pieces, tail)
  {
    var p := pieces[0];
    wider := [p.(gap := [c] + p.gap)] + pieces[1..];
    assert wider[1..] == pieces[1..];
    assert [c] + p.gap + p.word + Text(pieces[1..], tail) == [c] + (p.gap + p.word + Text(pieces[1..], tail));
  }

  lemma {:induction false} NeatGap(gap: string, rest: string)
    requires Blank(gap) && Neat(rest)
    ensures Neat(gap + rest)
    decreases |gap|
  {
    if gap == "" {
      assert gap + rest == rest;
    } else {
      assert (gap + rest)[1..] == gap[1..] + rest;
      NeatGap(gap[1..], rest);
    }
  }

  /** Every layout of tokens is a neat text. */
  lemma {:induction false} LayoutNeat(pieces: seq<Piece>, tail: string)
    requires LaidOut(pieces, tail)
    ensures Neat(Text(pieces, tail))
    decreases |pieces|
  {
    if pieces == [] {
      NeatGap(tail, "");
      assert tail + "" == tail;
    } else {
      var p, rest := pieces[0], Text(pieces[1..], tail);
      LayoutNeat(pieces[1..], tail);
      FirstWord(p.tok, p.word, rest);
      assert (p.word + rest)[|p.word|..] == rest;
      NeatGap(p.gap, p.word + rest);
      assert p.gap + p.word + rest == p.gap + (p.word + rest);
    }
  }

  // ----- with single spaces -----

  /** A token that can be written. */
  predicate Writable(t: Tok) {
    match t
    case EOF => false
    case Ident(v) => IsIdent(v)
    case Str(v) => '"' !in v || '\'' !in v
    case Eq(v) => v == "==" || v == "==="
    case Neq(v) => v == "!=" || v == "!=="
    case _ => true
  }

  function Word(t: Tok): (w: string)
    requires Writable(t)
    ensures Spells(t, w)
  {
    match t
    case Ident(v) => v
    case Dot => "."
    case Str(v) => if '"' !in v then "\"" + v + "\"" else "'" + v + "'"
    case Eq(v) => v
    case Neq(v) => v
    case And => "&&"
    case Or => "||"
    case Not => "!"
    case LP => "("
    case RP => ")"
  }

  /** Each token with a space before it. */
  function Spaced(toks: seq<Tok>): (pieces: seq<Piece>)
    requires forall i | 0 <= i < |toks| :: Writable(toks[i])
  {
    if toks == [] then [] else [Piece(" ", toks[0], Word(toks[0]))] + Spaced(toks[1..])
  }

  lemma {:induction false} SpacedLaidOut(toks: seq<Tok>)
    requires forall i | 0 <= i < |toks| :: Writable(toks[i])
    ensures LaidOut(Spaced(toks), "") && Toks(Spaced(toks)) == toks
    decreases |toks|
  {
    if toks != [] {
      SpacedLaidOut(toks[1..]);
      var rest := Spaced(toks[1..]);
      assert Spaced(toks)[1..] == rest;
      assert rest != [] ==> Text(rest, "")[0] == ' ';
    }
  }

  /** Round trip with separating spaces: exactly the tokens come back, and one EOF. */
  lemma LexSpaced(toks: seq<Tok>)
    requires forall i | 0 <= i < |toks| :: Writable(toks[i])
    ensures Lex(Text(Spaced(toks), "")) == toks + [EOF]
  {
    SpacedLaidOut(toks);
    LexLayout(Spaced(toks), "");
  }
}
