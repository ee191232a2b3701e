/** The request and response objects the routing framework hands to every handler. */
module Http {
  import opened Wrappers
  import opened UserModel

  /** The JSON bodies the handlers send. */
  datatype Body = Message(message: string) | Errors(errors: seq<string>)

  /** What the client receives: status code, `Location` header and body. */
  datatype Reply = Reply(status: int, location: Option<string>, body: Option<Body>)

  /** A response object: its status, location and body are set in place, then it is sent. */
  class Response {
    var status: int
    var location: Option<string>
    var body: Option<Body>
    var sent: bool

    /** A response no handler has written to: status 200, no header, no body, not sent. */
    predicate Untouched()
      reads this
    {
      status == 200 && location.None? && body.None? && !sent
    }

    /** The reply as the client would see it. */
    function View(): Reply
      reads this
    {
      Reply(status, location, body)
    }

    constructor ()
      ensures Untouched()
    {
      status := 200;
      location := None;
      body := None;
      sent := false;
    }

    /** `res.status(code)`. */
    method Status(code: int)
      modifies this
      ensures status == code && location == old(location) && body == old(body) && sent == old(sent)
    {
      status := code;
    }

    /** `res.location(url)`. */
    method SetLocation(url: string)
      modifies this
      ensures location == Some(url) && status == old(status) && body == old(body) && sent == old(sent)
    {
      location := Some(url);
    }

    /** `res.json(b)`: sends `b` as the body. */
    method Json(b: Body)
      modifies this
      ensures body == Some(b) && sent && status == old(status) && location == old(location)
    {
      body := Some(b);
      sent := true;
    }

    /** `res.end()`: sends the response without a body. */
    method End()
      modifies this
      ensures sent && status == old(status) && location == old(location) && body == old(body)
    {
      sent := true;
    }
  }

  /** A request object: its parsed body and the slot the authentication gate fills. */
  class Request<B> {
    var body: B
    var currentUser: Option<User>

    constructor (body: B)
      ensures this.body == body && currentUser.None?
    {
      this.body := body;
      currentUser := None;
    }
  }
}
