/**
 * `ErrorHandlingMiddleware`: logs an exception from the inner stages and
 * replies with a fixed 500 body that does not reveal it.
 */
module ErrorHandling {
  import opened Wrappers
  import opened Http

  const InternalError := ErrorObject("Internal server error.")

  class ErrorHandlingMiddleware {
    const next: Next

    constructor (next: Next)
      ensures this.next == next
    {
      this.next := next;
    }

    /** `InvokeAsync`. */
    method Invoke(ctx: HttpContext, clock: Clock, log: Logger) returns (o: Outcome)
      modifies next, ctx, clock, log
      ensures next.calls == old(next.calls) + 1
      ensures clock.now == old(clock.now) + next.duration
      ensures next.result.Completed? ==>
        && ctx.Response() == next.effect(old(ctx.Response()))
        && ctx.writeFailures == old(ctx.writeFailures)
        && log.events == old(log.events) + next.logged
        && o == Completed
      ensures next.result.Threw? ==>
        var inner := next.effect(old(ctx.Response()));
        var failure := WriteFailure(old(ctx.writeFailures), 0);
        && log.events == old(log.events) + next.logged + [UnhandledException(next.result.message)]
        && ctx.status == 500 && ctx.contentType == Some(JsonUtf8)
        && ctx.writeFailures == AfterWrites(old(ctx.writeFailures), 1)
        && (failure.None? ==> ctx.body == inner.body + [InternalError] && o == Completed)
        && (failure.Some? ==> ctx.body == inner.body && o == Threw(failure.value))
    {
      var r := next.Invoke(ctx, clock, log);
      if r.Threw? {
        log.Log(UnhandledException(r.message));
        o := HandleException(ctx);
      } else {
        o := Completed;
      }
    }

    /** `HandleExceptionAsync`: status 500 and `{"error":"Internal server error."}`
        whatever the exception was. `WriteAsJsonAsync` replaces the content type
        just set with its own JSON content type. */
    static method HandleException(ctx: HttpContext) returns (o: Outcome)
      modifies ctx
      ensures ctx.status == 500 && ctx.contentType == Some(JsonUtf8)
      ensures ctx.writeFailures == AfterWrites(old(ctx.writeFailures), 1)
      ensures WriteFailure(old(ctx.writeFailures), 0).None? ==>
        ctx.body == old(ctx.body) + [InternalError] && o == Completed
      ensures WriteFailure(old(ctx.writeFailures), 0).Some? ==>
        ctx.body == old(ctx.body) && o == Threw(WriteFailure(old(ctx.writeFailures), 0).value)
    {
      ctx.status := 500;
      ctx.contentType := Some(Json);
      o := ctx.WriteAsJson(InternalError);
    }
  }
}
