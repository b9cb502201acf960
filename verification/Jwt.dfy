/** Signed tokens.  The encoding is left out: a token is its header, its claims and its MAC, or malformed.  The
    MAC is an arbitrary function of header and claims.  Times are whole seconds. */
module Jwt {
  import opened Options

  datatype Claims = Claims(subject: string, email: string, jti: string, iat: int, exp: int)

  datatype Token = Malformed | Token(header: string, claims: Claims, mac: string)

  type Mac = (string, Claims) -> string

  const HEADER: string := "HS256"
  const SKEW: int := 30

  function Sign(c: Claims, mac: Mac, now: int, ttl: int): Token {
    var signed := c.(iat := now, exp := now + ttl);
    Token(HEADER, signed, mac(HEADER, signed))
  }

  function Parse(t: Token, mac: Mac, now: int): Option<Claims> {
    if t.Malformed? then None
    else if t.mac != mac(t.header, t.claims) then None
    else if t.claims.iat > now + SKEW then None
    else if t.claims.exp != 0 && now > t.claims.exp then None
    else Some(t.claims)
  }

  /** A signed token is accepted, with the claims it was signed for, from half a minute before it was issued to
      and including the second it expires; one that would expire at time 0 never does. */
  lemma Lifetime(c: Claims, mac: Mac, issued: int, ttl: int, now: int)
    ensures Parse(Sign(c, mac, issued, ttl), mac, now) ==
      if issued - SKEW <= now && (issued + ttl == 0 || now <= issued + ttl)
      then Some(c.(iat := issued, exp := issued + ttl)) else None
  {
  }

  /** A token accepted once is accepted later, until it expires. */
  lemma AcceptedUntilExpiry(t: Token, mac: Mac, first: int, later: int)
    requires Parse(t, mac, first).Some? && first <= later
    ensures Parse(t, mac, later).Some? <==> t.claims.exp == 0 || later <= t.claims.exp
  {
  }

  // ----- what is accepted was signed -----

  /** A token under the header of Sign is accepted exactly if Sign made it with the same MAC, from half a minute before
      it was issued to and including the second it expires. */
  lemma ParseExact(t: Token, mac: Mac, now: int)
    requires t.Token? && t.header == HEADER
    ensures Parse(t, mac, now).Some? <==>
      && t == Sign(t.claims, mac, t.claims.iat, t.claims.exp - t.claims.iat)
      && t.claims.iat - 30 <= now && (t.claims.exp == 0 || now <= t.claims.exp)
  {
  }

  /** The MAC tells claims apart. */
  ghost predicate Telling(mac: Mac) {
    forall h, c, d | mac(h, c) == mac(h, d) :: c == d
  }

  /** A token that was accepted once is not accepted any more, at no time, after its claims were changed. */
  lemma TamperedRefused(t: Token, changed: Claims, mac: Mac, first: int, now: int)
    requires Telling(mac) && Parse(t, mac, first).Some? && changed != t.claims
    ensures Parse(t.(claims := changed), mac, now) == None
  {
    assert mac(t.header, t.claims) != mac(t.header, changed);
  }
}
