/**
 * The HTTP transport (pyllow/request.py) as an oracle: the responses the
 * network will give are a script fixed in advance, consumed one per request,
 * and every request handed to the transport is appended to a log.
 */
module Transport {
  import opened Wrappers
  import opened Json

  /** The arguments of one `make_request` call. */
  datatype Request = Request(
    httpMethod: string,
    url: string,
    headers: map<string, string>,
    data: Option<Payload>,
    params: Option<Payload>,
    verifySsl: bool)

  /**
   * What one call yields: a response (status code, body text, and the value
   * `response.json()` would give, `None` when the body is not JSON), or a
   * transport failure (the `RequestException` re-raised by `make_request`).
   */
  datatype Outcome = Response(status: int, text: string, json: Option<J>) | TransportError

  /** The outcome of the next request; a script that has run out fails at the transport. */
  function Head(script: seq<Outcome>): Outcome
  {
    if script == [] then TransportError else script[0]
  }

  /** The script left after one request. */
  function Tail(script: seq<Outcome>): seq<Outcome>
  {
    if script == [] then [] else script[1..]
  }

  class Network {
    var script: seq<Outcome>
    var log: seq<Request>

    constructor (script: seq<Outcome>)
      ensures this.script == script && log == []
    {
      this.script := script;
      log := [];
    }

    /** `make_request`: hands `req` to the network and returns the next scripted outcome. */
    method Send(req: Request) returns (o: Outcome)
      modifies this
      ensures o == Head(old(script))
      ensures script == Tail(old(script))
      ensures log == old(log) + [req]
    {
      o := Head(script);
      script := Tail(script);
      log := log + [req];
    }
  }
}
