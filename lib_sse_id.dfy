/**
 * lib/sse-id.js: `createSSEIDClass(secureId)` returns a class whose constructor
 * refuses any secret but the one it was created with, so that only the owning
 * service can mint IDs. An ID remembers its response and the `Last-Event-ID`
 * request header; `locals` reads the response's metadata.
 */
module LibSseId {
  import opened Wrappers
  import opened Utils
  import opened Http

  const ForgedIdMessage := "Cannot create an instance of the SSEID without the secureId from the sseService"

  /** `typeof req.headers['last-event-id'] === 'string' ? … : null`. */
  function LastEventIdHeader(headers: Headers): (r: Option<string>)
    ensures r.Some? <==> "last-event-id" in headers
    ensures r.Some? ==> r.value == headers["last-event-id"]
  {
    if "last-event-id" in headers then Some(headers["last-event-id"]) else None
  }

  /** One class produced by `createSSEIDClass`: it closes over its secret. */
  class SSEIDClass {
    const secret: string

    constructor (secret: string)
      ensures this.secret == secret
    {
      this.secret := secret;
    }

    /** The check the constructor performs before anything else (an assertion error otherwise). */
    function Admit(secureId: string): (r: Option<ErrorValue>)
      ensures r.None? <==> secureId == secret
      ensures r.Some? ==> r.value.message == ForgedIdMessage
    {
      if secureId == secret then None else Some(ErrorValue("AssertionError", ForgedIdMessage))
    }

    /** `new SSEID(secureId, req, res)`: an ID, or the assertion error for a wrong secret. */
    method New(secureId: string, req: Request, res: Response) returns (r: Result<SSEID, ErrorValue>)
      ensures r.Ok? <==> secureId == secret
      ensures r.Ok? ==> fresh(r.value) && r.value.cls == this && r.value.res == res
      ensures r.Ok? ==> r.value.lastEventId == LastEventIdHeader(req.headers)
      ensures r.Err? ==> r.error == ErrorValue("AssertionError", ForgedIdMessage)
    {
      var check := Admit(secureId);
      if check.Some? {
        r := Err(check.value);
      } else {
        var id := new SSEID(this, secureId, req, res);
        r := Ok(id);
      }
    }
  }

  /** An SSEID; `cls` is the class it is an instance of, which is what `instanceof` tests. */
  class SSEID {
    const cls: SSEIDClass
    /** `internal(this).res`. */
    const res: Response
    /** `internal(this).lastEventId`. */
    const lastEventId: Option<string>

    constructor (cls: SSEIDClass, secureId: string, req: Request, res: Response)
      requires secureId == cls.secret
      ensures this.cls == cls && this.res == res
      ensures lastEventId == LastEventIdHeader(req.headers)
    {
      this.cls := cls;
      this.res := res;
      this.lastEventId := LastEventIdHeader(req.headers);
    }

    /** The `locals` getter: the response's metadata object. */
    function Locals(): Locals?
      reads res
    {
      res.locals
    }
  }
}
