/**
 * `ExceptionHandlingMiddleware`: after the inner stages, appends a JSON
 * envelope to a 404 response, and turns an exception into a 500 envelope
 * carrying the exception's message.
 */
module ExceptionHandling {
  import opened Wrappers
  import opened Http

  const NotFoundEnvelope := StatusEnvelope(404, "Resource not found.", None)

  function ErrorEnvelope(details: string): (envelope: Payload)
  {
    StatusEnvelope(500, "An unexpected error occurred.", Some(details))
  }

  class ExceptionHandlingMiddleware {
    const next: Next

    constructor (next: Next)
      ensures this.next == next
    {
      this.next := next;
    }

    /** `InvokeAsync`. The 404 check and its write sit inside the `try`, so a
        failing 404 write is handled like an exception from the inner stage;
        the write in the handler is not protected. */
    method Invoke(ctx: HttpContext, clock: Clock, log: Logger) returns (o: Outcome)
      modifies next, ctx, clock, log
      ensures next.calls == old(next.calls) + 1
      ensures clock.now == old(clock.now) + next.duration
      ensures log.events == old(log.events) + next.logged
      // the inner stage completes with a status other than 404: untouched
      ensures var inner := next.effect(old(ctx.Response()));
        next.result.Completed? && inner.status != 404 ==>
          ctx.Response() == inner && ctx.writeFailures == old(ctx.writeFailures) && o == Completed
      // it completes with 404 and the envelope is written
      ensures var inner := next.effect(old(ctx.Response())); var f := old(ctx.writeFailures);
        next.result.Completed? && inner.status == 404 && WriteFailure(f, 0).None? ==>
          && ctx.Response() == ResponseState(404, Some(Json), inner.body + [NotFoundEnvelope])
          && ctx.writeFailures == AfterWrites(f, 1) && o == Completed
      // it completes with 404, the envelope write fails, the error envelope is written
      ensures var inner := next.effect(old(ctx.Response())); var f := old(ctx.writeFailures);
        next.result.Completed? && inner.status == 404 && WriteFailure(f, 0).Some? && WriteFailure(f, 1).None? ==>
          && ctx.Response() == ResponseState(500, Some(Json), inner.body + [ErrorEnvelope(WriteFailure(f, 0).value)])
          && ctx.writeFailures == AfterWrites(f, 2) && o == Completed
      // it completes with 404 and both writes fail: the second failure escapes
      ensures var inner := next.effect(old(ctx.Response())); var f := old(ctx.writeFailures);
        next.result.Completed? && inner.status == 404 && WriteFailure(f, 0).Some? && WriteFailure(f, 1).Some? ==>
          && ctx.Response() == ResponseState(500, Some(Json), inner.body)
          && ctx.writeFailures == AfterWrites(f, 2) && o == Threw(WriteFailure(f, 1).value)
      // it throws and the error envelope is written
      ensures var inner := next.effect(old(ctx.Response())); var f := old(ctx.writeFailures);
        next.result.Threw? && WriteFailure(f, 0).None? ==>
          && ctx.Response() == ResponseState(500, Some(Json), inner.body + [ErrorEnvelope(next.result.message)])
          && ctx.writeFailures == AfterWrites(f, 1) && o == Completed
      // it throws and the error envelope write fails: that failure escapes
      ensures var inner := next.effect(old(ctx.Response())); var f := old(ctx.writeFailures);
        next.result.Threw? && WriteFailure(f, 0).Some? ==>
          && ctx.Response() == ResponseState(500, Some(Json), inner.body)
          && ctx.writeFailures == AfterWrites(f, 1) && o == Threw(WriteFailure(f, 0).value)
    {
      var r := next.Invoke(ctx, clock, log);
      if r.Completed? && ctx.status == 404 {
        r := HandleNotFound(ctx);
      }
      if r.Threw? {
        o := HandleException(ctx, r.message);
      } else {
        o := Completed;
      }
    }

    /** `HandleExceptionAsync`: JSON content type, status 500, and an envelope
        whose StatusCode is the status just set. */
    static method HandleException(ctx: HttpContext, message: string) returns (o: Outcome)
      modifies ctx
      ensures ctx.status == 500 && ctx.contentType == Some(Json)
      ensures ctx.writeFailures == AfterWrites(old(ctx.writeFailures), 1)
      ensures WriteFailure(old(ctx.writeFailures), 0).None? ==>
        ctx.body == old(ctx.body) + [ErrorEnvelope(message)] && ctx.body[|ctx.body| - 1].statusCode == ctx.status
        && o == Completed
      ensures WriteFailure(old(ctx.writeFailures), 0).Some? ==>
        ctx.body == old(ctx.body) && o == Threw(WriteFailure(old(ctx.writeFailures), 0).value)
    {
      ctx.contentType := Some(Json);
      ctx.status := 500;
      o := ctx.Write(StatusEnvelope(ctx.status, "An unexpected error occurred.", Some(message)));
    }

    /** `HandleNotFoundAsync`: JSON content type and the 404 envelope, appended
        after whatever the body already holds; the status is left alone. */
    static method HandleNotFound(ctx: HttpContext) returns (o: Outcome)
      modifies ctx
      ensures ctx.status == old(ctx.status) && ctx.contentType == Some(Json)
      ensures ctx.writeFailures == AfterWrites(old(ctx.writeFailures), 1)
      ensures WriteFailure(old(ctx.writeFailures), 0).None? ==>
        ctx.body == old(ctx.body) + [NotFoundEnvelope] && o == Completed
      ensures WriteFailure(old(ctx.writeFailures), 0).Some? ==>
        ctx.body == old(ctx.body) && o == Threw(WriteFailure(old(ctx.writeFailures), 0).value)
    {
      ctx.contentType := Some(Json);
      o := ctx.Write(NotFoundEnvelope);
    }
  }
}
