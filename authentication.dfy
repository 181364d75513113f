/**
 * `AuthenticationMiddleware`: takes the bearer token from the Authorization
 * header, replies 401 unless the token decodes and has not expired, and
 * otherwise hands the request on unchanged.
 */
module Authentication {
  import opened Wrappers
  import opened Text
  import opened Http

  /** What the JWT handler makes of a token: `CanReadToken` is false, or
      `ReadJwtToken` throws, or it yields a token whose `ValidTo` is given
      (in the same units as the current instant). */
  datatype JwtRead = Unreadable | ReadThrows(message: string) | Readable(validTo: int)

  /** `Headers["Authorization"].FirstOrDefault()?.Split(" ").Last()`: null
      without a header value; otherwise the text after the last space of the
      first value, or all of it when it has no space. */
  function ExtractToken(authorization: seq<string>): (token: Option<string>)
    ensures token.None? <==> |authorization| == 0
    ensures token.Some? ==> var h := authorization[0]; var t := token.value;
      && ' ' !in t && |t| <= |h| && t == h[|h| - |t|..]
      && (|t| < |h| ==> h[|h| - |t| - 1] == ' ')
  {
    if |authorization| == 0 then None
    else
      LastSegmentIsTextAfterLastSpace(authorization[0]);
      Some(LastSegment(authorization[0]))
  }

  /** `ValidateToken`: the token is readable and expires strictly after `now`.
      A token the handler cannot read, or whose reading throws, is invalid;
      no exception leaves this check. */
  function ValidateToken(decode: string -> JwtRead, token: string, now: int): (valid: bool)
    ensures valid <==> decode(token).Readable? && decode(token).validTo > now
    ensures decode(token).Unreadable? || decode(token).ReadThrows? ==> !valid
  {
    match decode(token)
    case Unreadable => false
    case ReadThrows(_) => false
    case Readable(validTo) => validTo > now
  }

  /** The request passes the gate: a non-empty token that validates. */
  predicate Admits(request: Request, decode: string -> JwtRead, now: int)
    ensures Admits(request, decode, now) ==>
      && |request.authorization| > 0
      && var t := LastSegment(request.authorization[0]);
      && |t| > 0 && decode(t).Readable? && decode(t).validTo > now
  {
    var token := ExtractToken(request.authorization);
    !IsNullOrEmpty(token) && ValidateToken(decode, token.value, now)
  }

  /** A request without an Authorization header is refused. */
  lemma MissingHeaderRefused(request: Request, decode: string -> JwtRead, now: int)
    requires |request.authorization| == 0
    ensures !Admits(request, decode, now)
  {
  }

  /** A header value ending in a space (such as "Bearer ") carries the empty
      token and is refused. */
  lemma TrailingSpaceRefused(request: Request, decode: string -> JwtRead, now: int)
    requires |request.authorization| > 0
    requires var h := request.authorization[0]; |h| > 0 && h[|h| - 1] == ' '
    ensures !Admits(request, decode, now)
  {
    TrailingSpaceGivesEmptyToken(request.authorization[0]);
  }

  /** A token that decodes but expires at or before `now` is refused. */
  lemma ExpiredTokenRefused(request: Request, decode: string -> JwtRead, now: int)
    requires |request.authorization| > 0
    requires var t := LastSegment(request.authorization[0]);
      decode(t).Readable? && decode(t).validTo <= now
    ensures !Admits(request, decode, now)
  {
  }

  /** The gate lets a request through exactly when the text after the last
      space of the first header value is non-empty, readable, and expires
      after `now`. */
  lemma AdmitsMeans(request: Request, decode: string -> JwtRead, now: int)
    ensures Admits(request, decode, now) <==>
      && |request.authorization| > 0
      && var t := LastSegment(request.authorization[0]);
      && |t| > 0 && decode(t).Readable? && decode(t).validTo > now
  {
  }

  const Unauthorized := ErrorObject("Unauthorized")

  class AuthenticationMiddleware {
    const next: Next
    const decode: string -> JwtRead

    constructor (next: Next, decode: string -> JwtRead)
      ensures this.next == next && this.decode == decode
    {
      this.next := next;
      this.decode := decode;
    }

    /** `InvokeAsync`. `now` is the current instant `ValidateToken` reads.
        The stage either replies 401 itself or delegates once, never both. */
    method Invoke(ctx: HttpContext, clock: Clock, log: Logger, now: int) returns (o: Outcome)
      modifies next, ctx, clock, log
      ensures Admits(ctx.request, decode, now) ==>
        && next.calls == old(next.calls) + 1
        && ctx.Response() == next.effect(old(ctx.Response()))
        && clock.now == old(clock.now) + next.duration
        && log.events == old(log.events) + next.logged
        && ctx.writeFailures == old(ctx.writeFailures)
        && o == next.result
      ensures !Admits(ctx.request, decode, now) ==>
        var failure := WriteFailure(old(ctx.writeFailures), 0);
        && next.calls == old(next.calls)
        && clock.now == old(clock.now) && log.events == old(log.events)
        && ctx.status == 401 && ctx.contentType == Some(JsonUtf8)
        && ctx.writeFailures == AfterWrites(old(ctx.writeFailures), 1)
        && (failure.None? ==> ctx.body == old(ctx.body) + [Unauthorized] && o == Completed)
        && (failure.Some? ==> ctx.body == old(ctx.body) && o == Threw(failure.value))
    {
      var token := ExtractToken(ctx.request.authorization);
      if IsNullOrEmpty(token) || !ValidateToken(decode, token.value, now) {
        ctx.status := 401;
        o := ctx.WriteAsJson(Unauthorized);
        return;
      }
      o := next.Invoke(ctx, clock, log);
    }
  }
}
