/** Database paths: their text form, the split into segments, and the subtree test of the hub. */
module Paths {
  type Path = seq<string>

  /** strings.TrimLeft(s, "/") */
  function TrimLeft(s: string): (t: string)
    ensures t != "" ==> t[0] != '/'
    ensures |t| <= |s|
  {
    if s != "" && s[0] == '/' then TrimLeft(s[1..]) else s
  }

  /** strings.TrimRight(s, "/") */
  function TrimRight(s: string): (t: string)
    ensures t <= s
    ensures t != "" ==> t[|t| - 1] != '/'
  {
    if s != "" && s[|s| - 1] == '/' then TrimRight(s[..|s| - 1]) else s
  }

  /** strings.Trim(s, "/") */
  function Trim(s: string): string {
    TrimRight(TrimLeft(s))
  }

  /** strings.Split(s, "/") */
  function Split(s: string): (segs: Path)
    ensures segs != []
  {
    if s == "" then [""]
    else if s[0] == '/' then [""] + Split(s[1..])
    else
      var rest := Split(s[1..]);
      [[s[0]] + rest[0]] + rest[1..]
  }

  function SplitPath(p: string): Path {
    var t := Trim(p);
    if t == "" then [] else Split(t)
  }

  /** The path an event carries for a write to `p`, and the prefix a stream on `p` subscribes with. */
  function EventPath(p: string): string {
    "/" + Trim(p)
  }

  /** Every segment preceded by a slash. */
  function Joined(segs: Path): string {
    if segs == [] then "" else "/" + segs[0] + Joined(segs[1..])
  }

  /** The text of a segment list: "/a/b", and "/" for the root. */
  function Text(segs: Path): string {
    if segs == [] then "/" else Joined(segs)
  }

  predicate SlashFree(segs: Path) {
    forall i | 0 <= i < |segs| :: '/' !in segs[i]
  }

  /** The segment lists that SplitPath yields: inner segments may be empty, the outer ones are not. */
  predicate Canonical(segs: Path) {
    SlashFree(segs) && (segs != [] ==> segs[0] != "" && segs[|segs| - 1] != "")
  }

  // ----- splitting and joining -----

  lemma SlashFirst(c: char, x: string, y: string)
    ensures "/" + ([c] + x) + y == "/" + [c] + (x + y)
    ensures ("/" + x + y)[1..] == x + y
  {
  }

  lemma JoinedExtend(c: char, rest: Path)
    requires rest != []
    ensures Joined([[c] + rest[0]] + rest[1..]) == "/" + [c] + Joined(rest)[1..]
  {
    var segs := [[c] + rest[0]] + rest[1..];
    assert segs[1..] == rest[1..];
    SlashFirst(c, rest[0], Joined(rest[1..]));
  }

  lemma {:induction false} SplitJoins(s: string)
    ensures SlashFree(Split(s)) && Joined(Split(s)) == "/" + s
  {
    if s != "" {
      var rest := Split(s[1..]);
      SplitJoins(s[1..]);
      assert s == [s[0]] + s[1..];
      if s[0] == '/' {
        assert Split(s)[1..] == rest;
      } else {
        JoinedExtend(s[0], rest);
        assert Joined(rest)[1..] == s[1..];
      }
    }
  }

  lemma {:induction false} SplitFirst(s: string, rest: string)
    requires '/' !in s
    ensures Split(s + "/" + rest) == [s] + Split(rest)
  {
    var t := s + "/" + rest;
    if s == "" {
      assert t[1..] == rest;
    } else {
      assert t[1..] == s[1..] + "/" + rest;
      SplitFirst(s[1..], rest);
      assert s == [s[0]] + s[1..];
    }
  }

  lemma {:induction false} SplitWhole(s: string)
    requires '/' !in s
    ensures Split(s) == [s]
  {
    if s != "" {
      SplitWhole(s[1..]);
      assert s == [s[0]] + s[1..];
    }
  }

  lemma {:induction false} JoinSplits(segs: Path)
    requires segs != [] && SlashFree(segs)
    ensures Split(Joined(segs)[1..]) == segs
  {
    var first, others := segs[0], segs[1..];
    assert Joined(segs)[1..] == first + Joined(others);
    if others == [] {
      assert first + "" == first;
      SplitWhole(first);
    } else {
      JoinSplits(others);
      assert Joined(others) == "/" + Joined(others)[1..];
      assert first + Joined(others) == first + "/" + Joined(others)[1..];
      SplitFirst(first, Joined(others)[1..]);
    }
  }

  lemma {:induction false} JoinedEnds(segs: Path)
    requires segs != []
    ensures Joined(segs) != "" && |Joined(segs)| >= 1 + |segs[|segs| - 1]|
    ensures segs[|segs| - 1] != "" ==> Joined(segs)[|Joined(segs)| - 1] == segs[|segs| - 1][|segs[|segs| - 1]| - 1]
    ensures segs[|segs| - 1] == "" ==> Joined(segs)[|Joined(segs)| - 1] == '/'
  {
    if |segs| > 1 {
      JoinedEnds(segs[1..]);
    }
  }

  // ----- the segments of a path and of its event -----

  /** Text with no outer slash is left alone by Trim, also after a slash is put in front. */
  lemma TrimKeeps(t: string)
    requires t != "" ==> t[0] != '/' && t[|t| - 1] != '/'
    ensures Trim("/" + t) == t == Trim(t)
  {
    assert ("/" + t)[1..] == t;
    assert TrimLeft("/" + t) == TrimLeft(t);
  }

  lemma TrimmedEnds(p: string)
    ensures var t := Trim(p); t != "" ==> t[0] != '/' && t[|t| - 1] != '/'
  {
  }

  /** The event of a write names the written segments, canonically. */
  lemma EventNamesPath(p: string)
    ensures Canonical(SplitPath(p))
    ensures EventPath(p) == Text(SplitPath(p))
    ensures SplitPath(EventPath(p)) == SplitPath(p)
  {
    var t := Trim(p);
    TrimmedEnds(p);
    TrimKeeps(t);
    if t != "" {
      SplitJoins(t);
      JoinedEnds(Split(t));
    }
  }

  /** Splitting undoes the text form of a canonical segment list. */
  lemma TextRoundTrip(segs: Path)
    requires Canonical(segs)
    ensures SplitPath(Text(segs)) == segs
  {
    if segs == [] {
      TrimKeeps("");
      assert "/" + "" == "/";
    } else {
      var t := Joined(segs)[1..];
      JoinedEnds(segs);
      assert t != "" && t[0] == segs[0][0] && t[|t| - 1] == Joined(segs)[|Joined(segs)| - 1];
      assert segs[|segs| - 1][|segs[|segs| - 1]| - 1] in segs[|segs| - 1];
      TrimKeeps(t);
      assert "/" + t == Joined(segs);
      JoinSplits(segs);
    }
  }

  lemma {:induction false} SplitLast(a: string, key: string)
    requires '/' !in key
    ensures Split(a + "/" + key) == Split(a) + [key]
  {
    var t := a + "/" + key;
    if a == "" {
      assert t[1..] == key;
      SplitWhole(key);
    } else {
      assert t[1..] == a[1..] + "/" + key;
      SplitLast(a[1..], key);
    }
  }

  // ----- trimming -----

  lemma {:induction false} TrimLeftStable(a: string, b: string)
    requires TrimLeft(a) != ""
    ensures TrimLeft(a + b) == TrimLeft(a) + b
  {
    if a[0] == '/' {
      assert (a + b)[1..] == a[1..] + b;
      TrimLeftStable(a[1..], b);
    }
  }

  lemma {:induction false} TrimLeftKeepsEnd(s: string)
    requires s != "" && s[|s| - 1] != '/'
    ensures var t := TrimLeft(s); t != "" && t[|t| - 1] == s[|s| - 1]
  {
    if s[0] == '/' {
      TrimLeftKeepsEnd(s[1..]);
    }
  }

  lemma {:induction false} TrimOrder(s: string)
    ensures Trim(s) == TrimLeft(TrimRight(s))
  {
    if s != "" && s[|s| - 1] == '/' {
      var front := s[..|s| - 1];
      TrimOrder(front);
      if TrimLeft(front) != "" {
        TrimLeftStable(front, "/");
        assert front + "/" == s;
        assert TrimLeft(s)[..|TrimLeft(s)| - 1] == TrimLeft(front);
      } else {
        AllSlashes(front);
        assert s == front + "/";
        assert TrimLeft(s) == "";
      }
    } else if s != "" {
      TrimLeftKeepsEnd(s);
    }
  }

  lemma {:induction false} AllSlashes(s: string)
    requires TrimLeft(s) == ""
    ensures TrimLeft(s + "/") == "" && TrimRight(s) == ""
  {
    if s == "" {
      assert s + "/" == "/" && "/"[1..] == "";
    } else {
      assert (s + "/")[1..] == s[1..] + "/";
      AllSlashes(s[1..]);
      AllSlashesRight(s);
    }
  }

  lemma {:induction false} AllSlashesRight(s: string)
    requires TrimLeft(s) == ""
    ensures TrimRight(s) == ""
  {
    if s != "" {
      SlashesOnly(s);
      OnlySlashes(s[..|s| - 1]);
      AllSlashesRight(s[..|s| - 1]);
    }
  }

  lemma {:induction false} SlashesOnly(s: string)
    requires TrimLeft(s) == ""
    ensures forall i | 0 <= i < |s| :: s[i] == '/'
  {
    if s != "" {
      SlashesOnly(s[1..]);
      assert s == [s[0]] + s[1..];
    }
  }

  lemma {:induction false} OnlySlashes(s: string)
    requires forall i | 0 <= i < |s| :: s[i] == '/'
    ensures TrimLeft(s) == ""
  {
    if s != "" {
      OnlySlashes(s[1..]);
    }
  }

  // ----- which texts name which segments -----

  predicate Slashes(s: string) {
    forall i | 0 <= i < |s| :: s[i] == '/'
  }

  lemma {:induction false} SlashesBefore(a: string, s: string)
    requires Slashes(a)
    ensures TrimLeft(a + s) == TrimLeft(s)
    decreases |a|
  {
    if a == "" {
      assert a + s == s;
    } else {
      assert (a + s)[1..] == a[1..] + s;
      SlashesBefore(a[1..], s);
    }
  }

  lemma {:induction false} SlashesBehind(s: string, b: string)
    requires Slashes(b)
    ensures TrimRight(s + b) == TrimRight(s)
    decreases |b|
  {
    if b == "" {
      assert s + b == s;
    } else {
      assert (s + b)[..|s + b| - 1] == s + b[..|b| - 1];
      SlashesBehind(s, b[..|b| - 1]);
    }
  }

  /** Slashes before and behind a path change nothing. */
  lemma OuterSlashes(a: string, p: string, b: string)
    requires Slashes(a) && Slashes(b)
    ensures SplitPath(a + p + b) == SplitPath(p) && EventPath(a + p + b) == EventPath(p)
  {
    assert a + p + b == a + (p + b);
    SlashesBefore(a, p + b);
    TrimOrder(p + b);
    SlashesBehind(p, b);
    TrimOrder(p);
  }

  lemma {:induction false} LeftTrimmed(s: string) returns (a: string)
    ensures Slashes(a) && s == a + TrimLeft(s)
  {
    a := "";
    if s != "" && s[0] == '/' {
      var more := LeftTrimmed(s[1..]);
      a := "/" + more;
      assert s == "/" + s[1..];
    } else {
      assert s == "" + s;
    }
  }

  lemma {:induction false} RightTrimmed(s: string) returns (b: string)
    ensures Slashes(b) && s == TrimRight(s) + b
  {
    b := "";
    if s != "" && s[|s| - 1] == '/' {
      var more := RightTrimmed(s[..|s| - 1]);
      b := more + "/";
      assert s == s[..|s| - 1] + "/";
    } else {
      assert s == s + "";
    }
  }

  /** The text of the segments without the slash in front. */
  function Bare(segs: Path): string {
    if segs == [] then "" else Joined(segs)[1..]
  }

  lemma TextAround(p: string) returns (a: string, b: string)
    ensures Slashes(a) && Slashes(b) && p == a + Bare(SplitPath(p)) + b
  {
    a := LeftTrimmed(p);
    b := RightTrimmed(TrimLeft(p));
    EventNamesPath(p);
    assert ("/" + Trim(p))[1..] == Trim(p) == Bare(SplitPath(p));
    assert p == a + Trim(p) + b;
  }

  lemma BareNames(segs: Path)
    requires Canonical(segs)
    ensures SplitPath(Bare(segs)) == segs
  {
    OuterSlashes("/", Bare(segs), "");
    TextRoundTrip(segs);
    assert "/" + Bare(segs) + "" == Text(segs);
  }

  /** A path text names a segment list exactly if the list is canonical and the text is that of the list with any
      slashes before and behind it. */
  lemma SplitExact(p: string, segs: Path)
    ensures SplitPath(p) == segs <==>
      Canonical(segs) && exists a, b :: Slashes(a) && Slashes(b) && p == a + Bare(segs) + b
  {
    if SplitPath(p) == segs {
      var a, b := TextAround(p);
      EventNamesPath(p);
      assert p == a + Bare(segs) + b;
    }
    if Canonical(segs) && exists a, b :: Slashes(a) && Slashes(b) && p == a + Bare(segs) + b {
      var a, b :| Slashes(a) && Slashes(b) && p == a + Bare(segs) + b;
      OuterSlashes(a, Bare(segs), b);
      BareNames(segs);
    }
  }

  // ----- the path that Push writes -----

  /** The child path that Push builds has the segments of the path and then the key, however many slashes
      the path starts or ends with. */
  lemma PushSegments(p: string, key: string)
    requires key != "" && '/' !in key
    ensures SplitPath(TrimRight(p) + "/" + key) == SplitPath(p) + [key]
  {
    var u := TrimRight(p);
    TrimOrder(p);
    TrimRightTwice(p);
    assert u + "/" + key == u + ("/" + key);
    if TrimLeft(u) == "" {
      PushToRoot(u, key);
    } else {
      PushBelow(u, key);
    }
  }

  lemma PushToRoot(u: string, key: string)
    requires key != "" && '/' !in key && TrimLeft(u) == "" && TrimRight(u) == u
    ensures SplitPath(u + ("/" + key)) == [key]
  {
    AllSlashesRight(u);
    assert u + ("/" + key) == "/" + key;
    TrimKeeps(key);
    SplitWhole(key);
  }

  lemma PushBelow(u: string, key: string)
    requires key != "" && '/' !in key && TrimLeft(u) != ""
    ensures SplitPath(u + ("/" + key)) == Split(TrimLeft(u)) + [key]
  {
    TrimLeftStable(u, "/" + key);
    EndsInKey(TrimLeft(u), key);
    SplitLast(TrimLeft(u), key);
  }

  lemma EndsInKey(a: string, key: string)
    requires key != "" && '/' !in key
    ensures a + ("/" + key) == a + "/" + key && TrimRight(a + ("/" + key)) == a + ("/" + key)
  {
    var t := a + ("/" + key);
    assert t[|t| - 1] == key[|key| - 1] && key[|key| - 1] in key;
  }

  /** A trimmed text has no slash left to trim. */
  lemma {:induction false} TrimRightTwice(s: string)
    ensures TrimRight(TrimRight(s)) == TrimRight(s)
  {
    if s != "" && s[|s| - 1] == '/' {
      TrimRightTwice(s[..|s| - 1]);
    }
  }

  // ----- the subtree test of the hub -----

  /** Whether an event at `evPath` is relevant to a subscriber of `prefix`. */
  predicate Matches(prefix: string, evPath: string) {
    || prefix == ""
    || prefix == evPath
    || (|evPath| > |prefix| && evPath[..|prefix|] == prefix && evPath[|prefix|] == '/')
    || (|prefix| > |evPath| && prefix[..|evPath|] == evPath && prefix[|evPath|] == '/')
  }

  /** With a slash put behind each, the texts are prefixes of each other exactly as the lists are. */
  lemma {:induction false} JoinedPrefix(a: Path, b: Path)
    requires SlashFree(a) && SlashFree(b)
    ensures Joined(a) + "/" <= Joined(b) + "/" <==> a <= b
  {
    var x, y := Joined(a) + "/", Joined(b) + "/";
    if a == [] {
    } else if b == [] {
      assert x[1..] == a[0] + Joined(a[1..]) + "/";
    } else {
      var x', y' := Joined(a[1..]) + "/", Joined(b[1..]) + "/";
      assert x == "/" + a[0] + x' && y == "/" + b[0] + y';
      assert x'[0] == '/' && y'[0] == '/';
      JoinedPrefix(a[1..], b[1..]);
      assert a == [a[0]] + a[1..] && b == [b[0]] + b[1..];
      if x <= y {
        FirstSegments(a[0], x', b[0], y');
      }
      if a[0] == b[0] {
        SameStart("/" + a[0], x', y');
      }
    }
  }

  lemma SameStart(s: string, x: string, y: string)
    ensures s + x <= s + y <==> x <= y
  {
    assert (s + x)[|s|..] == x && (s + y)[|s|..] == y;
  }

  lemma FirstSegments(s: string, x: string, t: string, y: string)
    requires '/' !in s && '/' !in t && x != "" && x[0] == '/' && y != "" && y[0] == '/'
    requires "/" + s + x <= "/" + t + y
    ensures s == t
  {
    var l, r := "/" + s + x, "/" + t + y;
    assert l[1 + |s|] == '/' && r[1 + |t|] == '/';
    assert forall i | 0 <= i < |s| :: l[1 + i] == s[i] && s[i] in s;
    assert forall i | 0 <= i < |t| :: r[1 + i] == t[i] && t[i] in t;
    assert |s| == |t|;
    assert s == l[1..1 + |s|] && t == r[1..1 + |s|];
  }

  /** One path is a prefix of the other. */
  predicate Comparable(p: Path, q: Path) {
    p <= q || q <= p
  }

  /** Neither or both of the paths are the root, and one is a prefix of the other. */
  predicate Related(p: Path, q: Path) {
    (p == [] <==> q == []) && Comparable(p, q)
  }

  /** The byte-level test on the texts decides the segment lists: neither side the root, it holds exactly when
      one list is a prefix of the other; the root matches the root alone. */
  lemma MatchesIsRelated(p: Path, q: Path)
    requires Canonical(p) && Canonical(q)
    ensures Matches(Text(p), Text(q)) <==> Related(p, q)
  {
    if p != [] && q != [] {
      JoinedPrefix(p, q);
      JoinedPrefix(q, p);
      SlashBehind(Joined(p), Joined(q));
      SlashBehind(Joined(q), Joined(p));
    } else if p != [] {
      assert Text(p)[..1] == "/" && Text(p)[1] == p[0][0];
    } else if q != [] {
      assert Text(q)[..1] == "/" && Text(q)[1] == q[0][0];
    }
  }

  lemma SlashBehind(x: string, y: string)
    ensures x + "/" <= y + "/" <==> x == y || (|y| > |x| && y[..|x|] == x && y[|x|] == '/')
  {
    if x + "/" <= y + "/" {
      assert (y + "/")[..|x|] == (x + "/")[..|x|] == x;
      assert (y + "/")[|x|] == '/';
    }
    assert |y| > |x| && y[..|x|] == x && y[|x|] == '/' ==> (y + "/")[..|x| + 1] == x + "/";
  }
}
