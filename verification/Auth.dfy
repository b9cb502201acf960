/** Token issuing and revocation.  Each call is one step that reads the clock once. */
module Auth {
  import opened Options
  import opened Jwt

  const TOKEN_TTL: int := 24 * 60 * 60

  datatype User = User(uid: string, email: string)

  datatype Verdict = Accepted(user: User) | InvalidToken | Revoked | UserNotFound

  /** Users by lower-case email and by id, and the revoked token ids with the expiry of their tokens. */
  datatype State = State(users: map<string, User>, byUid: map<string, User>, blacklist: map<string, int>)

  /** The calls, with the clock, and with what is random in them. */
  datatype Step =
    | Register(now: int, key: string, user: User)
    | Login(now: int, key: string)
    | Logout(now: int, token: Token)
    | Clean(now: int)

  function IssueToken(u: User, jti: string, mac: Mac, now: int): Token {
    Sign(Claims(u.uid, u.email, jti, 0, 0), mac, now, TOKEN_TTL)
  }

  function Next(s: State, step: Step, mac: Mac): State {
    match step
    case Register(_, key, u) =>
      if key in s.users then s else s.(users := s.users[key := u], byUid := s.byUid[u.uid := u])
    case Login(_, _) => s
    case Logout(now, t) =>
      var c := Parse(t, mac, now);
      if c.None? || c.value.jti == "" then s else s.(blacklist := s.blacklist[c.value.jti := c.value.exp])
    case Clean(now) => s.(blacklist := map j | j in s.blacklist && now <= s.blacklist[j] :: s.blacklist[j])
  }

  function Verify(s: State, t: Token, mac: Mac, now: int): Verdict {
    var c := Parse(t, mac, now);
    if c.None? then InvalidToken
    else if c.value.jti != "" && c.value.jti in s.blacklist then Revoked
    else if c.value.subject !in s.byUid then UserNotFound
    else Accepted(s.byUid[c.value.subject])
  }

  function Exec(s: State, steps: seq<Step>, mac: Mac): State {
    if steps == [] then s else Next(Exec(s, steps[..|steps| - 1], mac), steps[|steps| - 1], mac)
  }

  // ----- the program -----

  class Service {
    var users: map<string, User>
    var byUid: map<string, User>
    var blacklist: map<string, int>
    const mac: Mac

    constructor (mac: Mac)
      ensures Model() == State(map[], map[], map[]) && this.mac == mac
    {
      users, byUid, blacklist := map[], map[], map[];
      this.mac := mac;
    }

    ghost function Model(): State
      reads this
    {
      State(users, byUid, blacklist)
    }

    /** `email` and `password` are taken as checked; `uid` and `jti` are random. */
    method RegisterUser(now: int, key: string, email: string, uid: string, jti: string)
      returns (token: Option<Token>)
      modifies `users, `byUid
      ensures Model() == Next(old(Model()), Register(now, key, User(uid, email)), mac)
      ensures token == if key in old(users) then None else Some(IssueToken(User(uid, email), jti, mac, now))
    {
      if key in users {
        return None;
      }
      var u := User(uid, email);
      users := users[key := u];
      byUid := byUid[uid := u];
      token := Some(IssueToken(u, jti, mac, now));
    }

    method LoginUser(now: int, key: string, passwordMatches: bool, jti: string) returns (token: Option<Token>)
      ensures token == if key in users && passwordMatches then Some(IssueToken(users[key], jti, mac, now)) else None
    {
      if key !in users || !passwordMatches {
        return None;
      }
      token := Some(IssueToken(users[key], jti, mac, now));
    }

    method LogoutToken(now: int, token: Token) returns (ok: bool)
      modifies `blacklist
      ensures Model() == Next(old(Model()), Logout(now, token), mac)
      ensures ok <==> Parse(token, mac, now).Some?
    {
      var c := Parse(token, mac, now);
      if c.None? {
        return false;
      }
      if c.value.jti == "" {
        return true;
      }
      blacklist := blacklist[c.value.jti := c.value.exp];
      ok := true;
    }

    method VerifyToken(now: int, token: Token) returns (v: Verdict)
      ensures v == Verify(Model(), token, mac, now)
    {
      var c := Parse(token, mac, now);
      if c.None? {
        return InvalidToken;
      }
      if c.value.jti != "" {
        if c.value.jti in blacklist {
          return Revoked;
        }
      }
      if c.value.subject !in byUid {
        return UserNotFound;
      }
      v := Accepted(byUid[c.value.subject]);
    }

    /** One pass of the cleaner. */
    method CleanBlacklist(now: int)
      modifies `blacklist
      ensures Model() == Next(old(Model()), Clean(now), mac)
    {
      var rest := blacklist.Keys;
      while rest != {}
        invariant rest <= blacklist.Keys <= old(blacklist).Keys
        invariant users == old(users) && byUid == old(byUid)
        invariant forall j | j in old(blacklist) && j !in rest :: j in blacklist <==> now <= old(blacklist)[j]
        invariant forall j | j in blacklist :: blacklist[j] == old(blacklist)[j]
        decreases rest
      {
        var j :| j in rest;
        if now > blacklist[j] {
          blacklist := blacklist - {j};
        }
        rest := rest - {j};
      }
    }
  }

  // ----- revocation -----

  /** The steps come after time `start` and before time `end`, in order. */
  predicate Between(start: int, steps: seq<Step>, end: int) {
    && start <= end
    && (forall i | 0 <= i < |steps| :: start <= steps[i].now <= end)
    && (forall i, j | 0 <= i < j < |steps| :: steps[i].now <= steps[j].now)
  }

  /** No other token with the id of `t` is logged out. */
  predicate OwnId(t: Token, steps: seq<Step>)
    requires t.Token?
  {
    forall i | 0 <= i < |steps| && steps[i].Logout? && steps[i].token.Token? ::
      steps[i].token.claims.jti == t.claims.jti ==> steps[i].token.claims.exp == t.claims.exp
  }

  lemma BetweenFront(start: int, steps: seq<Step>, end: int)
    requires Between(start, steps, end) && steps != []
    ensures Between(start, steps[..|steps| - 1], steps[|steps| - 1].now)
  {
  }

  /** Until it expires, a revoked token stays on the list. */
  lemma {:induction false} StaysListed(s: State, t: Token, mac: Mac, start: int, steps: seq<Step>, end: int)
    requires t.Token? && t.claims.jti in s.blacklist && s.blacklist[t.claims.jti] == t.claims.exp
    requires Between(start, steps, end) && OwnId(t, steps)
    ensures var b := Exec(s, steps, mac).blacklist;
      end <= t.claims.exp ==> t.claims.jti in b && b[t.claims.jti] == t.claims.exp
    decreases |steps|
  {
    if steps != [] {
      var front, last := steps[..|steps| - 1], steps[|steps| - 1];
      BetweenFront(start, steps, end);
      assert OwnId(t, front) by { assert forall i | 0 <= i < |front| :: front[i] == steps[i]; }
      StaysListed(s, t, mac, start, front, last.now);
      assert steps[|steps| - 1] == last;
    }
  }

  /** What a caller of Logout hopes for, in one later run: the token is revoked, and invalid once it has expired. */
  ghost predicate KeptOut(s: State, t: Token, mac: Mac, start: int, steps: seq<Step>, end: int)
    requires t.Token?
  {
    Between(start, steps, end) && OwnId(t, steps) ==>
      Verify(Exec(s, steps, mac), t, mac, end) ==
        if t.claims.exp == 0 || end <= t.claims.exp then Revoked else InvalidToken
  }

  /** While the token could still be accepted, every later Verify finds it revoked. */
  lemma RevokedForGood(s: State, t: Token, mac: Mac, start: int, steps: seq<Step>, end: int)
    requires Parse(t, mac, start).Some? && t.claims.jti != "" && t.claims.exp != 0
    ensures KeptOut(Next(s, Logout(start, t), mac), t, mac, start, steps, end)
  {
    if Between(start, steps, end) && OwnId(t, steps) {
      AcceptedUntilExpiry(t, mac, start, end);
      StaysListed(Next(s, Logout(start, t), mac), t, mac, start, steps, end);
    }
  }

  /** Revocation: after a successful Logout, every Verify finds the token revoked until it expires and invalid from
      then on, in any run in which no other token with its id is logged out, exactly if it has an id and an
      expiry.  A token without an id is not listed, and the entry of one without an expiry is dropped by the next
      cleaning. */
  lemma RevocationExact(s: State, t: Token, mac: Mac, start: int)
    requires Parse(t, mac, start).Some? && t.claims.subject in s.byUid
    ensures (forall steps, end :: KeptOut(Next(s, Logout(start, t), mac), t, mac, start, steps, end))
      <==> t.claims.jti != "" && t.claims.exp != 0
  {
    var out := Next(s, Logout(start, t), mac);
    if t.claims.jti != "" && t.claims.exp != 0 {
      forall steps, end
        ensures KeptOut(out, t, mac, start, steps, end)
      {
        RevokedForGood(s, t, mac, start, steps, end);
      }
    } else if t.claims.jti == "" {
      assert !KeptOut(out, t, mac, start, [], start);
    } else {
      var end := if start < 1 then 1 else start;
      var steps := [Clean(end)];
      assert steps[..0] == [] && Exec(out, steps, mac) == Next(out, Clean(end), mac);
      assert t.claims.jti !in Exec(out, steps, mac).blacklist;
      AcceptedUntilExpiry(t, mac, start, end);
      assert !KeptOut(out, t, mac, start, steps, end);
    }
  }

  /** The tokens that Register and Login issue have an id, if it was drawn, and an expiry. */
  lemma IssuedIsRevocable(s: State, u: User, jti: string, mac: Mac, issued: int, start: int, steps: seq<Step>, end: int)
    requires jti != "" && issued + TOKEN_TTL != 0
    ensures var t := IssueToken(u, jti, mac, issued);
      Parse(t, mac, start).Some? ==> KeptOut(Next(s, Logout(start, t), mac), t, mac, start, steps, end)
  {
    var t := IssueToken(u, jti, mac, issued);
    if Parse(t, mac, start).Some? {
      RevokedForGood(s, t, mac, start, steps, end);
    }
  }

  // ----- acceptance -----

  /** No token with this id is logged out. */
  predicate NotLoggedOut(jti: string, steps: seq<Step>) {
    forall i | 0 <= i < |steps| && steps[i].Logout? && steps[i].token.Token? :: steps[i].token.claims.jti != jti
  }

  lemma {:induction false} StaysKnown(s: State, uid: string, jti: string, mac: Mac, steps: seq<Step>)
    requires uid in s.byUid && jti !in s.blacklist && NotLoggedOut(jti, steps)
    ensures var r := Exec(s, steps, mac); uid in r.byUid && jti !in r.blacklist
    decreases |steps|
  {
    if steps != [] {
      var front := steps[..|steps| - 1];
      assert NotLoggedOut(jti, front) by { assert forall i | 0 <= i < |front| :: front[i] == steps[i]; }
      StaysKnown(s, uid, jti, mac, front);
    }
  }

  /** A token that is not logged out is accepted during its lifetime and at no other time, whatever else is
      registered, logged out and cleaned. */
  lemma {:induction false} AcceptedForLifetime(s: State, u: User, jti: string, mac: Mac, issued: int,
                                              steps: seq<Step>, now: int)
    requires u.uid in s.byUid && jti !in s.blacklist && NotLoggedOut(jti, steps)
    requires issued + TOKEN_TTL != 0
    ensures Verify(Exec(s, steps, mac), IssueToken(u, jti, mac, issued), mac, now).Accepted?
      <==> issued - SKEW <= now <= issued + TOKEN_TTL
  {
    StaysKnown(s, u.uid, jti, mac, steps);
    Lifetime(Claims(u.uid, u.email, jti, 0, 0), mac, issued, TOKEN_TTL, now);
  }

  /** No one else is registered under the id of `u`. */
  predicate OnlyUser(u: User, steps: seq<Step>) {
    forall i | 0 <= i < |steps| && steps[i].Register? && steps[i].user.uid == u.uid :: steps[i].user == u
  }

  lemma {:induction false} StaysRegistered(s: State, key: string, u: User, mac: Mac, steps: seq<Step>)
    requires key in s.users && s.users[key] == u && u.uid in s.byUid && s.byUid[u.uid] == u && OnlyUser(u, steps)
    ensures var r := Exec(s, steps, mac);
      key in r.users && r.users[key] == u && u.uid in r.byUid && r.byUid[u.uid] == u
    decreases |steps|
  {
    if steps != [] {
      var front := steps[..|steps| - 1];
      assert OnlyUser(u, front) by { assert forall i | 0 <= i < |front| :: front[i] == steps[i]; }
      StaysRegistered(s, key, u, mac, front);
    }
  }

  /** After a registration under a free key, whatever follows, the key belongs to that user, for whom Login issues then;
      and every token issued for the user whose id is not on the list yields that user during its 24 hours, from half
      a minute before, and is invalid at any other time. */
  lemma RegisteredAccepted(s: State, key: string, u: User, mac: Mac, start: int, steps: seq<Step>, jti: string,
                           issued: int, now: int)
    requires key !in s.users && OnlyUser(u, steps) && issued + TOKEN_TTL != 0
    ensures var r := Exec(Next(s, Register(start, key, u), mac), steps, mac);
      && key in r.users && r.users[key] == u
      && (jti !in r.blacklist ==>
            Verify(r, IssueToken(u, jti, mac, issued), mac, now) ==
              if issued - 30 <= now <= issued + 86400 then Accepted(u) else InvalidToken)
  {
    StaysRegistered(Next(s, Register(start, key, u), mac), key, u, mac, steps);
    Lifetime(Claims(u.uid, u.email, jti, 0, 0), mac, issued, TOKEN_TTL, now);
  }

  /** In particular the token that Register issues, if its id is new and it is not logged out; and what it carries. */
  lemma RegisteredTokenAccepted(s: State, key: string, u: User, jti: string, mac: Mac, issued: int, steps: seq<Step>,
                                now: int)
    requires key !in s.users && jti !in s.blacklist && NotLoggedOut(jti, steps) && OnlyUser(u, steps)
    requires issued + TOKEN_TTL != 0
    ensures var r, t := Exec(Next(s, Register(issued, key, u), mac), steps, mac), IssueToken(u, jti, mac, issued);
      && t.claims == Claims(u.uid, u.email, jti, issued, issued + 86400)
      && Verify(r, t, mac, now) == if issued - 30 <= now <= issued + 86400 then Accepted(u) else InvalidToken
  {
    RegisteredAccepted(s, key, u, mac, issued, steps, jti, issued, now);
    StaysKnown(Next(s, Register(issued, key, u), mac), u.uid, jti, mac, steps);
  }

  // ----- who is accepted -----

  /** Step `i` registers `u` under a key that no step before has registered. */
  predicate Registers(steps: seq<Step>, i: nat, u: User) {
    && i < |steps| && steps[i].Register? && steps[i].user == u
    && forall j | 0 <= j < i && steps[j].Register? :: steps[j].key != steps[i].key
  }

  lemma {:induction false} KeysRegistered(mac: Mac, steps: seq<Step>, key: string)
    ensures key in Exec(State(map[], map[], map[]), steps, mac).users <==>
      exists j :: 0 <= j < |steps| && steps[j].Register? && steps[j].key == key
    decreases |steps|
  {
    if steps != [] {
      var front, last := steps[..|steps| - 1], steps[|steps| - 1];
      KeysRegistered(mac, front, key);
      if last.Register? && last.key == key {
        assert steps[|steps| - 1].key == key;
      }
      assert forall j | 0 <= j < |front| :: front[j] == steps[j];
    }
  }

  lemma {:induction false} KnownRegistered(mac: Mac, steps: seq<Step>, uid: string) returns (i: nat)
    requires uid in Exec(State(map[], map[], map[]), steps, mac).byUid
    ensures var u := Exec(State(map[], map[], map[]), steps, mac).byUid[uid]; u.uid == uid && Registers(steps, i, u)
    decreases |steps|
  {
    i := |steps|;
    if steps != [] {
      var front, last := steps[..|steps| - 1], steps[|steps| - 1];
      var s := Exec(State(map[], map[], map[]), front, mac);
      if last.Register? && last.user.uid == uid && last.key !in s.users {
        i := |steps| - 1;
        KeysRegistered(mac, front, last.key);
      } else {
        i := KnownRegistered(mac, front, uid);
      }
      assert forall j | 0 <= j < |front| :: front[j] == steps[j];
    }
  }

  /** Since the start of the program: whoever is accepted was registered, as the first under that key, and shows a
      token with this user's id that has the right MAC. */
  lemma AcceptedRegistered(mac: Mac, steps: seq<Step>, t: Token, now: int, u: User) returns (i: nat)
    requires Verify(Exec(State(map[], map[], map[]), steps, mac), t, mac, now) == Accepted(u)
    ensures Registers(steps, i, u) && t.Token? && t.claims.subject == u.uid && t.mac == mac(t.header, t.claims)
  {
    i := KnownRegistered(mac, steps, t.claims.subject);
  }

  /** In every state a token under the header of Sign is found to be anything but invalid exactly if Sign made it, and
      in its lifetime. */
  lemma OnlySigned(s: State, mac: Mac, steps: seq<Step>, t: Token, now: int)
    requires t.Token? && t.header == HEADER
    ensures Verify(Exec(s, steps, mac), t, mac, now) != InvalidToken <==>
      && t == Sign(t.claims, mac, t.claims.iat, t.claims.exp - t.claims.iat)
      && t.claims.iat - 30 <= now && (t.claims.exp == 0 || now <= t.claims.exp)
  {
    ParseExact(t, mac, now);
  }

  /** An issued token whose claims were changed is invalid in every state and at every time. */
  lemma TamperedInvalid(s: State, mac: Mac, steps: seq<Step>, u: User, jti: string, issued: int, changed: Claims,
                        now: int)
    requires Telling(mac)
    ensures var t := IssueToken(u, jti, mac, issued);
      changed != t.claims ==> Verify(Exec(s, steps, mac), t.(claims := changed), mac, now) == InvalidToken
  {
    var t := IssueToken(u, jti, mac, issued);
    assert mac(HEADER, changed) == mac(HEADER, t.claims) ==> changed == t.claims;
  }

  // ----- who is refused -----

  /** Step `i` logs a token with the id `j` and the expiry `exp` out, while it is accepted. */
  predicate LogsOut(mac: Mac, steps: seq<Step>, i: nat, j: string, exp: int) {
    && i < |steps| && steps[i].Logout? && j != ""
    && var c := Parse(steps[i].token, mac, steps[i].now);
       c.Some? && c.value.jti == j && c.value.exp == exp
  }

  lemma {:induction false} ListedLoggedOut(mac: Mac, steps: seq<Step>, j: string) returns (i: nat)
    requires j in Exec(State(map[], map[], map[]), steps, mac).blacklist
    ensures LogsOut(mac, steps, i, j, Exec(State(map[], map[], map[]), steps, mac).blacklist[j])
    decreases |steps|
  {
    i := |steps|;
    if steps != [] {
      var front, last := steps[..|steps| - 1], steps[|steps| - 1];
      var s := Exec(State(map[], map[], map[]), front, mac);
      var c := if last.Logout? then Parse(last.token, mac, last.now) else None;
      if c.Some? && c.value.jti == j && j != "" {
        i := |steps| - 1;
      } else {
        i := ListedLoggedOut(mac, front, j);
      }
    }
  }

  /** Since the start of the program: a token is found revoked only if one with its id, which is not empty, was logged
      out while that was accepted. */
  lemma RevokedLoggedOut(mac: Mac, steps: seq<Step>, t: Token, now: int) returns (i: nat, exp: int)
    requires Verify(Exec(State(map[], map[], map[]), steps, mac), t, mac, now) == Revoked
    ensures t.Token? && LogsOut(mac, steps, i, t.claims.jti, exp)
  {
    exp := Exec(State(map[], map[], map[]), steps, mac).blacklist[t.claims.jti];
    i := ListedLoggedOut(mac, steps, t.claims.jti);
  }

  // ----- what the cleaner drops -----

  /** Whether the entry of the token id `j` can change the answer to some token at time `now` or later. */
  ghost predicate Matters(s: State, j: string, mac: Mac, now: int)
    requires j in s.blacklist
  {
    exists t: Token, later: int :: now <= later && t.Token? && t.claims.exp == s.blacklist[j] &&
      Verify(s, t, mac, later) != Verify(s.(blacklist := s.blacklist - {j}), t, mac, later)
  }

  lemma MattersWhileAccepted(s: State, j: string, mac: Mac, now: int)
    requires j in s.blacklist && j != "" && s.blacklist[j] != 0
    ensures Matters(s, j, mac, now) <==> now <= s.blacklist[j]
  {
    var exp := s.blacklist[j];
    if now <= exp {
      var t := Sign(Claims("", "", j, 0, 0), mac, now, exp - now);
      Lifetime(Claims("", "", j, 0, 0), mac, now, exp - now, now);
      assert Verify(s, t, mac, now) == Revoked;
      assert Verify(s.(blacklist := s.blacklist - {j}), t, mac, now) != Revoked;
    }
  }

  /** A pass of the cleaner keeps exactly the entries that can still change an answer for a token with the expiry of
      the entry, if there is an expiry. */
  lemma CleanExact(s: State, j: string, mac: Mac, now: int)
    requires j in s.blacklist && j != "" && s.blacklist[j] != 0
    ensures j in Next(s, Clean(now), mac).blacklist <==> Matters(s, j, mac, now)
    ensures j in Next(s, Clean(now), mac).blacklist ==> Next(s, Clean(now), mac).blacklist[j] == s.blacklist[j]
  {
    MattersWhileAccepted(s, j, mac, now);
  }
}
