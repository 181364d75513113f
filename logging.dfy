/**
 * `LoggingMiddleware`: logs the request line, times the inner stages with a
 * stopwatch and logs the final status and the elapsed time. It leaves the
 * response alone and has no `finally`, so an exception skips the exit event.
 */
module Logging {
  import opened Http

  class LoggingMiddleware {
    const next: Next

    constructor (next: Next)
      ensures this.next == next
    {
      this.next := next;
    }

    /** `InvokeAsync`. */
    method Invoke(ctx: HttpContext, clock: Clock, log: Logger) returns (o: Outcome)
      modifies next, ctx, clock, log
      ensures next.calls == old(next.calls) + 1
      ensures ctx.Response() == next.effect(old(ctx.Response())) && o == next.result
      ensures ctx.writeFailures == old(ctx.writeFailures)
      ensures clock.now == old(clock.now) + next.duration
      ensures var entry := IncomingRequest(ctx.request.verb, ctx.request.path);
        next.result.Completed? ==>
          log.events == old(log.events) + [entry] + next.logged
                        + [OutgoingResponse(ctx.status, next.duration)]
      ensures var entry := IncomingRequest(ctx.request.verb, ctx.request.path);
        next.result.Threw? ==> log.events == old(log.events) + [entry] + next.logged
    {
      log.Log(IncomingRequest(ctx.request.verb, ctx.request.path));
      var started := clock.now;
      o := next.Invoke(ctx, clock, log);
      if o.Threw? {
        return;
      }
      var stopped := clock.now;
      log.Log(OutgoingResponse(ctx.status, stopped - started));
    }
  }
}
