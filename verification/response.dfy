/** The uniform JSON response envelope `{"s", "m", "r"?, "c"?}` and the
    status helpers that write it. */
module Response {
  import opened Common
  import opened AppErr
  import opened Model

  /** What a caller hands over as `Data` (an `any` in the source). */
  datatype Data =
    | Nil
    | AppErrorData(err: AppError)
    | UserData(user: User)
    | UserList(users: seq<User>)
    | FullList(entries: seq<UserWithStats>)
    | TextData(text: string)

  datatype SendParams = SendParams(status: int, data: Data, message: string)

  /** `SendParams{W: w}`: no status, no data, no message. */
  const Bare: SendParams := SendParams(0, Nil, "")

  function WithMessage(message: string): SendParams
  {
    SendParams(0, Nil, message)
  }

  function WithData(data: Data): SendParams
  {
    SendParams(0, data, "")
  }

  /** The JSON payload: `r` is omitted when Nil, `c` when empty. */
  datatype Envelope = Envelope(s: int, m: string, r: Data, c: string)

  /** What reaches the wire: the status line, the content type, the body. */
  datatype Sent = Sent(status: int, contentType: string, body: Envelope)

  /** The keys present in the JSON rendering of an envelope. */
  function JsonKeys(e: Envelope): set<string>
  {
    {"s", "m"} + (if e.r.Nil? then {} else {"r"}) + (if e.c == "" then {} else {"c"})
  }

  /** The envelope invariant: s is 1 or 0; a success never carries a code;
      a failure never carries an application error object in `r`. */
  ghost predicate WellFormed(e: Envelope)
  {
    && (e.s == 1 || e.s == 0)
    && (e.s == 1 ==> "c" !in JsonKeys(e))
    && (e.s == 0 ==> !e.r.AppErrorData?)
  }

  /** The core writer `send`. */
  function Send(p: SendParams, success: bool, defaultStatus: int, defaultMessage: string): (out: Sent)
    ensures out.status == (if p.status == 0 then defaultStatus else p.status)
    ensures out.body.m == (if p.message == "" then defaultMessage else p.message)
    ensures out.contentType == "application/json"
    ensures out.body.s == 1 <==> success
    ensures success ==> out.body.r == p.data && out.body.c == ""
    ensures !success && p.data.AppErrorData? ==> out.body.r == Nil && out.body.c == p.data.err.code
    ensures !success && !p.data.AppErrorData? ==> out.body.r == p.data && out.body.c == ""
    ensures WellFormed(out.body)
  {
    var status := if p.status == 0 then defaultStatus else p.status;
    var message := if p.message == "" then defaultMessage else p.message;
    var body :=
      if success then Envelope(1, message, p.data, "")
      else if p.data.AppErrorData? then Envelope(0, message, Nil, p.data.err.code)
      else Envelope(0, message, p.data, "");
    Sent(status, "application/json", body)
  }

  datatype Helper =
    | Success | Created | BadRequest | Unauthorized | UnauthorizedAccess | Forbidden
    | NotFound | InternalError | TooManyRequests | MethodNotAllowed | TokenMissing

  /** The fixed (success, status, message) defaults of each helper. */
  function Defaults(h: Helper): (bool, int, string)
  {
    match h
    case Success => (true, StatusOK, "Success")
    case Created => (true, StatusCreated, "Created")
    case BadRequest => (false, StatusBadRequest, "Bad Request")
    case Unauthorized => (false, StatusUnauthorized, "Unauthenticated")
    case UnauthorizedAccess => (false, StatusUnauthorized, "Unauthorized Access")
    case Forbidden => (false, StatusForbidden, "Forbidden")
    case NotFound => (false, StatusNotFound, "Not Found")
    case InternalError => (false, StatusInternalServerError, "Internal Server Error")
    case TooManyRequests => (false, StatusTooManyRequests, "Too Many Requests")
    case MethodNotAllowed => (false, StatusMethodNotAllowed, "Method Not Allowed")
    case TokenMissing => (false, StatusUnauthorized, "Token Missing")
  }

  /** A public helper: `send` with that helper's defaults. */
  function Write(h: Helper, p: SendParams): (out: Sent)
    ensures out.body.s == 1 <==> h in {Success, Created}
    ensures WellFormed(out.body)
  {
    var (success, status, message) := Defaults(h);
    Send(p, success, status, message)
  }

  /** With nothing supplied, each helper answers with its documented
      status and message; only Success and Created report s = 1. */
  lemma HelperDefaults(h: Helper)
    ensures var out := Write(h, Bare);
      && (h == Success ==> out.status == 200 && out.body.m == "Success")
      && (h == Created ==> out.status == 201 && out.body.m == "Created")
      && (h == BadRequest ==> out.status == 400 && out.body.m == "Bad Request")
      && (h == Unauthorized ==> out.status == 401 && out.body.m == "Unauthenticated")
      && (h == UnauthorizedAccess ==> out.status == 401 && out.body.m == "Unauthorized Access")
      && (h == Forbidden ==> out.status == 403 && out.body.m == "Forbidden")
      && (h == NotFound ==> out.status == 404 && out.body.m == "Not Found")
      && (h == InternalError ==> out.status == 500 && out.body.m == "Internal Server Error")
      && (h == TooManyRequests ==> out.status == 429 && out.body.m == "Too Many Requests")
      && (h == MethodNotAllowed ==> out.status == 405 && out.body.m == "Method Not Allowed")
      && (h == TokenMissing ==> out.status == 401 && out.body.m == "Token Missing")
      && JsonKeys(out.body) == {"s", "m"}
  {
  }

  /** The error as `response.Error` receives it. */
  datatype Failure = App(app: AppError) | Plain(err: Error)

  /** response.Error: an application error is sent with its own status,
      message and code and no result; any other error becomes a 500 whose
      message is the error text. */
  function SendError(f: Failure): (out: Sent)
    ensures out.body.s == 0
    ensures f.App? ==> out.status == f.app.status && out.body.m == f.app.message
                       && out.body.c == f.app.code && out.body.r == Nil
    ensures f.Plain? ==> out.status == StatusInternalServerError && out.body.r == Nil && out.body.c == ""
    ensures f.Plain? ==> out.body.m == (if Message(f.err) == "" then "Internal Server Error" else Message(f.err))
  {
    match f
    case App(ae) => Send(SendParams(ae.status, AppErrorData(ae), ae.message), false, ae.status, ae.message)
    case Plain(e) => Write(InternalError, WithMessage(Message(e)))
  }

  /** An application error's envelope never exposes `r`, and exposes `c`
      exactly when the error has a code. */
  lemma AppErrorEnvelopeKeys(ae: AppError)
    ensures "r" !in JsonKeys(SendError(App(ae)).body)
    ensures "c" in JsonKeys(SendError(App(ae)).body) <==> ae.code != ""
  {
  }
}
