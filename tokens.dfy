/** The auth token of `User.encode_auth_token` / `User.decode_auth_token`.
    The HS256 signer is abstract: a `Codec` pairs a signing function with a verifying
    one, and `Sound` says that verifying what was signed gives the claims back. A
    token that fails signature or structure checks verifies to `None`. Time is the
    injected clock, in whole seconds. */
module Tokens {
  import opened Basics
  import opened Models

  /** The JWT payload: `exp`, `iat` and `sub`. */
  datatype Claims = Claims(exp: int, iat: int, sub: int)

  datatype Codec = Codec(sign: Claims -> string, verify: string -> Option<Claims>)

  ghost predicate Sound(codec: Codec) {
    forall p :: codec.verify(codec.sign(p)) == Some(p)
  }

  /** `AUTH_TOKEN_EXPIRY_DAYS` and `AUTH_TOKEN_EXPIRY_SECONDS`. */
  datatype ExpiryConfig = ExpiryConfig(days: nat, seconds: nat)

  const SecondsPerDay: nat := 86400

  /** `timedelta(days=..., seconds=...)` in seconds. */
  function Lifetime(cfg: ExpiryConfig): nat {
    cfg.days * SecondsPerDay + cfg.seconds
  }

  /** The payload built for `user_id` at time `now`. */
  function IssueClaims(cfg: ExpiryConfig, userId: int, now: int): (c: Claims)
    ensures c.sub == userId && c.iat == now
    ensures c.exp - c.iat == cfg.days * 86400 + cfg.seconds
  {
    Claims(now + Lifetime(cfg), now, userId)
  }

  /** `encode_auth_token(user_id)`. */
  function EncodeAuthToken(codec: Codec, cfg: ExpiryConfig, userId: int, now: int): (token: string)
    ensures Sound(codec) ==> codec.verify(token) == Some(IssueClaims(cfg, userId, now))
  {
    codec.sign(IssueClaims(cfg, userId, now))
  }

  /** What `decode_auth_token` returns: the `sub` claim, or one of three messages. */
  datatype Decoded = Subject(sub: int) | Rejected(message: string)

  const BlacklistedMessage: string := "Token was Blacklisted, Please login In"
  const ExpiredMessage: string := "Signature expired, Please sign in again"
  const InvalidMessage: string := "Invalid token. Please sign in again"

  /** `decode_auth_token(token)` against the blacklist table at time `now`: a token that
      does not verify is invalid; a verified token whose `exp` has been reached is
      expired (the `ExpiredSignatureError` clause comes before the more general
      `InvalidTokenError` one); only a verified, unexpired token is looked up in the
      blacklist; otherwise its subject is returned. */
  function DecodeAuthToken(codec: Codec, blacklist: seq<BlacklistEntry>, token: string, now: int): (r: Decoded)
    ensures r.Subject? <==> && codec.verify(token).Some?
                            && now < codec.verify(token).value.exp
                            && !CheckBlacklist(blacklist, token)
    ensures r.Subject? ==> r.sub == codec.verify(token).value.sub
    ensures r.Rejected? ==> r.message == InvalidMessage || r.message == ExpiredMessage || r.message == BlacklistedMessage
  {
    match codec.verify(token)
    case None => Rejected(InvalidMessage)
    case Some(claims) =>
      if claims.exp <= now then Rejected(ExpiredMessage)
      else if CheckBlacklist(blacklist, token) then Rejected(BlacklistedMessage)
      else Subject(claims.sub)
  }

  /** An issued token carries `sub = user_id`, `iat = now` and
      `exp = now + days * 86400 + seconds`. */
  lemma IssuedClaims(codec: Codec, cfg: ExpiryConfig, userId: int, now: int)
    requires Sound(codec)
    ensures codec.verify(EncodeAuthToken(codec, cfg, userId, now))
            == Some(Claims(now + cfg.days * 86400 + cfg.seconds, now, userId))
  {
  }

  /** Round trip: a token issued for `userId` at `issuedAt`, presented before it expires
      and while it is not blacklisted, decodes to `userId`. */
  lemma RoundTrip(codec: Codec, cfg: ExpiryConfig, blacklist: seq<BlacklistEntry>,
                  userId: int, issuedAt: int, now: int)
    requires Sound(codec)
    requires now < issuedAt + Lifetime(cfg)
    requires !CheckBlacklist(blacklist, EncodeAuthToken(codec, cfg, userId, issuedAt))
    ensures DecodeAuthToken(codec, blacklist, EncodeAuthToken(codec, cfg, userId, issuedAt), now)
            == Subject(userId)
  {
  }

  /** An issued token is reported expired from `iat + lifetime` on, and never before,
      whatever the blacklist holds. */
  lemma ExpiryBoundary(codec: Codec, cfg: ExpiryConfig, blacklist: seq<BlacklistEntry>,
                       userId: int, issuedAt: int, now: int)
    requires Sound(codec)
    ensures DecodeAuthToken(codec, blacklist, EncodeAuthToken(codec, cfg, userId, issuedAt), now)
            == Rejected(ExpiredMessage)
            <==> now >= issuedAt + Lifetime(cfg)
  {
  }

  /** A token that fails the signature or structure check is invalid, whatever the
      clock and the blacklist say. */
  lemma InvalidTokenRejected(codec: Codec, blacklist: seq<BlacklistEntry>, token: string, now: int)
    requires codec.verify(token).None?
    ensures DecodeAuthToken(codec, blacklist, token, now) == Rejected(InvalidMessage)
  {
  }

  /** The blacklist is consulted only after a successful, unexpired decode: an invalid
      or expired token gets the same verdict against any two blacklists. */
  lemma BlacklistConsultedLast(codec: Codec, b1: seq<BlacklistEntry>, b2: seq<BlacklistEntry>,
                               token: string, now: int)
    requires codec.verify(token).None? || codec.verify(token).value.exp <= now
    ensures DecodeAuthToken(codec, b1, token, now) == DecodeAuthToken(codec, b2, token, now)
  {
  }

  /** A blacklisted token never yields a subject: it is invalid, expired or reported
      as blacklisted. */
  lemma BlacklistedNeverAccepted(codec: Codec, blacklist: seq<BlacklistEntry>, token: string, now: int)
    requires CheckBlacklist(blacklist, token)
    ensures DecodeAuthToken(codec, blacklist, token, now).Rejected?
    ensures codec.verify(token).Some? && now < codec.verify(token).value.exp ==>
            DecodeAuthToken(codec, blacklist, token, now) == Rejected(BlacklistedMessage)
  {
  }

  /** Decoding succeeds exactly for a verified, unexpired, unlisted token, and then
      returns its `sub` claim. */
  lemma DecodeAccepts(codec: Codec, blacklist: seq<BlacklistEntry>, token: string, now: int, sub: int)
    ensures DecodeAuthToken(codec, blacklist, token, now) == Subject(sub) <==>
            && codec.verify(token).Some?
            && now < codec.verify(token).value.exp
            && !CheckBlacklist(blacklist, token)
            && codec.verify(token).value.sub == sub
  {
  }

  /** Revoke, then reuse: once an issued, unexpired token has been appended to the
      blacklist, presenting it again is refused as blacklisted. */
  lemma {:induction false} RevokedTokenRefused(codec: Codec, cfg: ExpiryConfig, blacklist: seq<BlacklistEntry>,
                                               userId: int, issuedAt: int, revokedAt: nat, now: int)
    requires Sound(codec)
    requires now < issuedAt + Lifetime(cfg)
    ensures var token := EncodeAuthToken(codec, cfg, userId, issuedAt);
            DecodeAuthToken(codec, blacklist + [BlacklistEntry(token, revokedAt)], token, now)
            == Rejected(BlacklistedMessage)
  {
    var token := EncodeAuthToken(codec, cfg, userId, issuedAt);
    CheckBlacklistAppend(blacklist, BlacklistEntry(token, revokedAt), token);
  }
}
