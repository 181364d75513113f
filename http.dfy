/**
 * The parts of an ASP.NET Core request the middleware stages touch: the
 * request line and Authorization header, the response (status, content type,
 * body), the next stage, a monotonic clock and a logger.
 */
module Http {
  import opened Wrappers

  /** Method (`verb`), path and the values of the `Authorization` header (empty when the
      header is absent). */
  datatype Request = Request(verb: string, path: string, authorization: seq<string>)

  /** A body part, kept structured rather than serialised. */
  datatype Payload =
    | Content(text: string)       // whatever an inner stage wrote
    | StatusEnvelope(statusCode: int, message: string, details: Option<string>)
                                  // {"StatusCode":..,"Message":..[,"Details":..]}
    | ErrorObject(error: string)  // {"error":..}

  /** A snapshot of the response. */
  datatype ResponseState = ResponseState(status: int, contentType: Option<string>, body: seq<Payload>)

  /** How a stage's invocation ended: normally, or by throwing an exception
      with the given message. */
  datatype Outcome = Completed | Threw(message: string)

  const Json := "application/json"
  /** The content type `WriteAsJsonAsync` sets. */
  const JsonUtf8 := "application/json; charset=utf-8"

  /** The failure the `k`-th body write from now raises, if any, under a
      failure script; a write beyond the script succeeds. */
  function WriteFailure(script: seq<Option<string>>, k: nat): (f: Option<string>)
  {
    if k < |script| then script[k] else None
  }

  /** The failure script left after `n` writes. */
  function AfterWrites(script: seq<Option<string>>, n: nat): (rest: seq<Option<string>>)
  {
    if n <= |script| then script[n..] else []
  }

  class HttpContext {
    const request: Request
    /** How the coming body writes end, in order: `Some(message)` for a write
        the stream fails with that message, `None` for one that succeeds. */
    var writeFailures: seq<Option<string>>
    var status: int
    var contentType: Option<string>
    var body: seq<Payload>

    function Response(): ResponseState
      reads this
    {
      ResponseState(status, contentType, body)
    }

    /** A fresh response: status 200, no content type, empty body. */
    constructor (request: Request, writeFailures: seq<Option<string>>)
      ensures this.request == request && this.writeFailures == writeFailures
      ensures Response() == ResponseState(200, None, [])
    {
      this.request := request;
      this.writeFailures := writeFailures;
      status := 200;
      contentType := None;
      body := [];
    }

    /** `Response.WriteAsync`: appends to the body, or throws the stream's error. */
    method Write(p: Payload) returns (o: Outcome)
      modifies this
      ensures status == old(status) && contentType == old(contentType)
      ensures writeFailures == AfterWrites(old(writeFailures), 1)
      ensures WriteFailure(old(writeFailures), 0).None? ==> o == Completed && body == old(body) + [p]
      ensures WriteFailure(old(writeFailures), 0).Some? ==>
        o == Threw(WriteFailure(old(writeFailures), 0).value) && body == old(body)
    {
      var failure := WriteFailure(writeFailures, 0);
      writeFailures := AfterWrites(writeFailures, 1);
      if failure.Some? {
        return Threw(failure.value);
      }
      body := body + [p];
      o := Completed;
    }

    /** `Response.WriteAsJsonAsync`: sets its own JSON content type, replacing
        any set before, then writes. */
    method WriteAsJson(p: Payload) returns (o: Outcome)
      modifies this
      ensures status == old(status) && contentType == Some(JsonUtf8)
      ensures writeFailures == AfterWrites(old(writeFailures), 1)
      ensures WriteFailure(old(writeFailures), 0).None? ==> o == Completed && body == old(body) + [p]
      ensures WriteFailure(old(writeFailures), 0).Some? ==>
        o == Threw(WriteFailure(old(writeFailures), 0).value) && body == old(body)
    {
      contentType := Some(JsonUtf8);
      o := Write(p);
    }
  }

  /** A monotonic clock in milliseconds (what `Stopwatch` reads). */
  class Clock {
    var now: int

    constructor (start: int)
      ensures now == start
    {
      now := start;
    }
  }

  /** The rest of the pipeline, seen from a stage: it turns the response it is
      given into `effect` of it, logs `logged`, takes `duration` milliseconds
      and ends with `result`. `calls` counts its invocations. Its own body
      writes are part of `effect`; the context's failure script is left to the
      writes of the stage that called it. */
  class Next {
    const effect: ResponseState -> ResponseState
    const logged: seq<LogEvent>
    const duration: nat
    const result: Outcome
    var calls: nat

    constructor (effect: ResponseState -> ResponseState, logged: seq<LogEvent>, duration: nat, result: Outcome)
      ensures this.effect == effect && this.logged == logged
      ensures this.duration == duration && this.result == result
      ensures calls == 0
    {
      this.effect := effect;
      this.logged := logged;
      this.duration := duration;
      this.result := result;
      calls := 0;
    }

    /** `await _next(context)`. */
    method Invoke(ctx: HttpContext, clock: Clock, log: Logger) returns (o: Outcome)
      modifies this, ctx, clock, log
      ensures calls == old(calls) + 1
      ensures ctx.Response() == effect(old(ctx.Response()))
      ensures ctx.writeFailures == old(ctx.writeFailures)
      ensures clock.now == old(clock.now) + duration
      ensures log.events == old(log.events) + logged
      ensures o == result
    {
      calls := calls + 1;
      var after := effect(ctx.Response());
      ctx.status, ctx.contentType, ctx.body := after.status, after.contentType, after.body;
      log.events := log.events + logged;
      clock.now := clock.now + duration;
      o := result;
    }
  }

  /** A structured log event. */
  datatype LogEvent =
    | IncomingRequest(verb: string, path: string)          // information
    | OutgoingResponse(statusCode: int, elapsedMs: int)      // information
    | UnhandledException(exceptionMessage: string)           // error

  /** The application's log sink, shared by every stage. */
  class Logger {
    var events: seq<LogEvent>

    constructor ()
      ensures events == []
    {
      events := [];
    }

    method Log(e: LogEvent)
      modifies this
      ensures events == old(events) + [e]
    {
      events := events + [e];
    }
  }
}
