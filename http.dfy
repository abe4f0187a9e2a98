/**
 * The part of Express's `res` object the relay uses: `res.status(code)`, `res.json(body)`
 * and `res.headersSent`, plus the response bodies the relay sends.
 */
module Http {
  import opened Wrappers
  import opened Providers

  const NoFileError := "No image file received"
  const InvalidContentError := "Invalid image content"
  const ProcessingError := "Error processing image"

  /** The value put under `data` in a success body. */
  datatype Payload =
    | Text(text: string)
      /** the response object itself, which has a reference cycle */
    | ResponseObject

  /** The JSON objects the relay passes to `res.json`. */
  datatype Body =
    | ErrorBody(error: string)                        // { error }
    | ErrorDetails(error: string, details: string)    // { error, details }
    | SuccessBody(data: Payload)                      // { success: true, data }

  predicate Serializable(body: Body) {
    !(body.SuccessBody? && body.data.ResponseObject?)
  }

  /** One call of `res.json`, with the status code in force at that moment. */
  datatype Attempt = Attempt(status: int, body: Body)

  /**
   * How the relay answers a settled pipeline: `res.json({success: true, data})` with the
   * default status on success, `res.status(500).json({error, details: error.message})`
   * on failure.
   */
  function Envelope(settled: Result<string, Failure>): (a: Attempt)
    ensures a.status == 200 <==> settled.Ok?
    ensures settled.Ok? ==> a.body == SuccessBody(Text(settled.value))
    ensures settled.Err? ==> a == Attempt(500, ErrorDetails(ProcessingError, settled.error.Message()))
  {
    match settled
    case Ok(data) => Attempt(200, SuccessBody(Text(data)))
    case Err(e) => Attempt(500, ErrorDetails(ProcessingError, e.Message()))
  }

  /** The error a `res.json(body)` call throws, given what was already sent. */
  function JsonFailure(body: Body, sent: Option<Attempt>): (r: Option<Failure>)
    ensures r.None? <==> Serializable(body) && sent.None?
    ensures !Serializable(body) ==> r == Some(CircularJson)
  {
    if !Serializable(body) then Some(CircularJson)
    else if sent.Some? then Some(HeadersSent)
    else None
  }

  /**
   * What one request did: every `res.json` attempt in order, the text `formatResponse`
   * was called with (None when it was not called), every provider request in order, and
   * an error that escaped the handler (None when every error was caught).
   */
  datatype Run = Run(attempts: seq<Attempt>, formatterInput: Option<string>,
                     calls: seq<Call>, uncaught: Option<Failure>)
  {
    /** The response that went out on the wire: the first attempt that did not throw. */
    function Delivered(): Option<Attempt> {
      FirstDelivered(attempts, None)
    }
  }

  /** Replays `res.json` attempts on a response that has already sent `sent`. */
  function FirstDelivered(attempts: seq<Attempt>, sent: Option<Attempt>): (r: Option<Attempt>)
    ensures sent.Some? ==> r == sent
    ensures r.Some? ==> sent.Some? || r.value in attempts
  {
    if attempts == [] then sent
    else
      var next := if JsonFailure(attempts[0].body, sent).None? then Some(attempts[0]) else sent;
      FirstDelivered(attempts[1..], next)
  }

  /** The Express response object of one request. */
  class Response {
    var statusCode: int
    /** every `res.json` call so far, in order */
    var attempts: seq<Attempt>
    /** what went out on the wire, if anything did */
    var sent: Option<Attempt>

    /** What went out is the first attempt that did not throw. */
    ghost predicate Valid()
      reads this
    {
      FirstDelivered(attempts, None) == sent
    }

    /** `res.headersSent` */
    predicate HeadersSent()
      reads this
      ensures HeadersSent() <==> sent.Some?
      ensures Valid() ==> (HeadersSent() <==> FirstDelivered(attempts, None).Some?)
    {
      sent.Some?
    }

    /** A fresh response: status 200 by default, nothing attempted, nothing sent. */
    constructor ()
      ensures Valid()
      ensures statusCode == 200 && attempts == [] && sent == None
    {
      statusCode := 200;
      attempts := [];
      sent := None;
    }

    /** `res.status(code)`: sets the status of what will be sent; never throws. */
    method Status(code: int)
      modifies this`statusCode
      ensures statusCode == code
    {
      statusCode := code;
    }

    /**
     * `res.json(body)`: serialises `body`, then sends it with the current status. The
     * attempt is recorded whether or not it throws; it throws on a cyclic body, and when a
     * response has already been sent; otherwise the response goes out.
     */
    method Json(body: Body) returns (thrown: Option<Failure>)
      requires Valid()
      modifies this`attempts, this`sent
      ensures Valid()
      ensures attempts == old(attempts) + [Attempt(statusCode, body)]
      ensures thrown == JsonFailure(body, old(sent))
      ensures sent == if thrown.None? then Some(Attempt(statusCode, body)) else old(sent)
    {
      thrown := JsonFailure(body, sent);
      attempts := attempts + [Attempt(statusCode, body)];
      if thrown.None? {
        sent := Some(Attempt(statusCode, body));
      }
      FirstDeliveredSnoc(old(attempts), Attempt(statusCode, body));
    }
  }

  /** Replaying one more attempt extends the replay by one step. */
  lemma {:induction false} FirstDeliveredSnoc(attempts: seq<Attempt>, a: Attempt)
    ensures var before := FirstDelivered(attempts, None);
      FirstDelivered(attempts + [a], None)
        == if JsonFailure(a.body, before).None? then Some(a) else before
  {
    FirstDeliveredSnocFrom(attempts, a, None);
  }

  lemma {:induction false} FirstDeliveredSnocFrom(attempts: seq<Attempt>, a: Attempt, sent: Option<Attempt>)
    ensures var before := FirstDelivered(attempts, sent);
      FirstDelivered(attempts + [a], sent)
        == if JsonFailure(a.body, before).None? then Some(a) else before
    decreases |attempts|
  {
    if attempts == [] {
      assert [] + [a] == [a];
    } else {
      var next := if JsonFailure(attempts[0].body, sent).None? then Some(attempts[0]) else sent;
      assert (attempts + [a])[1..] == attempts[1..] + [a];
      FirstDeliveredSnocFrom(attempts[1..], a, next);
    }
  }
}
