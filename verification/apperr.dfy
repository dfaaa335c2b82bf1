/** Classified application errors: an HTTP status, a client-facing message
    and a machine-readable code. */
module AppErr {
  import opened Common
  import StrConv

  datatype AppError = AppError(status: int, message: string, code: string)

  /** apperr.New keeps its three arguments as given. */
  function New(status: int, message: string, code: string): (e: AppError)
    ensures e.status == status && e.message == message && e.code == code
  {
    AppError(status, message, code)
  }

  /** (*AppError).Error(): "[<status>] <code>: <message>". */
  function Text(e: AppError): string
  {
    "[" + StrConv.FormatInt(e.status) + "] " + e.code + ": " + e.message
  }

  /** Reads the status back from the front of an error text. */
  function StatusOfText(s: string): Option<int>
  {
    if |s| == 0 || s[0] != '[' then None else StrConv.ParseInt(SplitOn(s[1..], ']')[0])
  }

  /** The rendered text always starts with the bracketed status, from which
      the status can be recovered whatever the code and message contain. */
  lemma TextCarriesStatus(e: AppError)
    requires InInt64(e.status)
    ensures HasPrefix(Text(e), "[" + StrConv.FormatInt(e.status) + "] ")
    ensures StatusOfText(Text(e)) == Some(e.status)
  {
    var d := StrConv.FormatInt(e.status);
    var t := Text(e);
    assert t[..|"[" + d + "] "|] == "[" + d + "] ";
    FormatIntHasNoBracket(e.status);
    assert t[1..] == d + [']'] + (" " + e.code + ": " + e.message);
    SplitOnConcat(d, ']', " " + e.code + ": " + e.message);
    StrConv.ParseFormatRoundTrip(e.status);
  }

  lemma FormatIntHasNoBracket(n: int)
    ensures NoChar(StrConv.FormatInt(n), ']')
  {
    var m: nat := if n < 0 then -n else n;
    StrConv.FormatNatDigits(m);
    var d := StrConv.FormatInt(n);
    forall i | 0 <= i < |d| ensures d[i] != ']' {
      if n < 0 && i > 0 {
        assert d[i] == StrConv.FormatNat(m)[i - 1];
      }
    }
  }

  const ErrNotFound: AppError := New(StatusNotFound, "Resource not found", "NOT_FOUND")
  const ErrUnauthorized: AppError := New(StatusUnauthorized, "Unauthorized access", "UNAUTHORIZED")
  const ErrInternal: AppError := New(StatusInternalServerError, "Internal server error", "INTERNAL_ERROR")

  /** The predefined errors carry their documented status and code. */
  lemma PredefinedErrors()
    ensures ErrNotFound.status == 404 && ErrNotFound.code == "NOT_FOUND"
    ensures ErrUnauthorized.status == 401 && ErrUnauthorized.code == "UNAUTHORIZED"
    ensures ErrInternal.status == 500 && ErrInternal.code == "INTERNAL_ERROR"
    ensures Text(ErrNotFound) == "[404] NOT_FOUND: Resource not found"
  {
    assert StrConv.FormatInt(404) == "404";
  }

  /** The source names a status constant that net/http does not define for
      this error, so the status is a parameter here. */
  function ErrBadRequest(status: int): (e: AppError)
    ensures e.message == "Invalid request" && e.code == "BAD_REQUEST"
  {
    New(status, "Invalid request", "BAD_REQUEST")
  }
}
