/** Shared vocabulary of the model: optional values, Go-style errors and
    results, 64-bit integer wrap-around, time units, and the handful of
    string operations the request-processing core uses (prefix, substring,
    join). */
module Common {

  type byte = bv8

  datatype Option<+T> = None | Some(value: T)

  /** One entry of a go-playground `ValidationErrors` list. */
  datatype FieldError = FieldError(namespace: string, field: string, tag: string)

  /** The Go `error` values the core produces or inspects. */
  datatype Error =
    | NoRows                               // sql.ErrNoRows
    | ValidationErrors(errs: seq<FieldError>)  // validator.ValidationErrors
    | Text(msg: string)                    // errors.New / fmt.Errorf / library errors

  datatype Result<+T> = Ok(value: T) | Err(error: Error)

  /** `err.Error()` */
  function Message(e: Error): string
  {
    match e
    case NoRows => "sql: no rows in result set"
    case ValidationErrors(errs) => Join(FieldErrorTexts(errs), "\n")
    case Text(m) => m
  }

  function FieldErrorTexts(errs: seq<FieldError>): (r: seq<string>)
    ensures |r| == |errs|
  {
    seq(|errs|, i requires 0 <= i < |errs| =>
      "Key: '" + errs[i].namespace + "' Error:Field validation for '" + errs[i].field
      + "' failed on the '" + errs[i].tag + "' tag")
  }

  // ---------------------------------------------------------------------
  // HTTP status codes (net/http constants).
  // ---------------------------------------------------------------------

  const StatusOK: int := 200
  const StatusCreated: int := 201
  const StatusBadRequest: int := 400
  const StatusUnauthorized: int := 401
  const StatusForbidden: int := 403
  const StatusNotFound: int := 404
  const StatusMethodNotAllowed: int := 405
  const StatusTooManyRequests: int := 429
  const StatusInternalServerError: int := 500

  // ---------------------------------------------------------------------
  // Time: integer nanoseconds since the Unix epoch; durations in nanoseconds.
  // ---------------------------------------------------------------------

  const Second: int := 1_000_000_000
  const Minute: int := 60 * Second
  /** Go's zero `time.Time` (January 1, year 1, UTC). */
  const ZeroTime: int := -62_135_596_800 * Second

  // ---------------------------------------------------------------------
  // 64-bit integers (Go's `int` on 64-bit platforms and `int64`).
  // ---------------------------------------------------------------------

  const TwoTo64: int := 0x1_0000_0000_0000_0000
  const MinInt64: int := -0x8000_0000_0000_0000
  const MaxInt64: int := 0x7fff_ffff_ffff_ffff

  predicate InInt64(x: int) { MinInt64 <= x <= MaxInt64 }

  /** Two's-complement wrap-around of an arithmetic result into int64. */
  function Wrap64(x: int): (r: int)
    ensures InInt64(r)
    ensures (x - r) % TwoTo64 == 0
    ensures InInt64(x) ==> r == x
  {
    var m := x % TwoTo64;
    if m > MaxInt64 then m - TwoTo64 else m
  }

  // ---------------------------------------------------------------------
  // Strings (Go strings are byte strings; here one char per byte).
  // ---------------------------------------------------------------------

  predicate HasPrefix(s: string, p: string)
  {
    |p| <= |s| && s[..|p|] == p
  }

  /** strings.TrimPrefix: removes `p` once when present. */
  function TrimPrefix(s: string, p: string): (r: string)
    ensures HasPrefix(s, p) ==> p + r == s
    ensures !HasPrefix(s, p) ==> r == s
  {
    if HasPrefix(s, p) then s[|p|..] else s
  }

  /** strings.Contains */
  predicate Contains(s: string, sub: string)
    decreases |s|
  {
    HasPrefix(s, sub) || (|s| > 0 && Contains(s[1..], sub))
  }

  /** A substring at a known offset is found by Contains. */
  lemma {:induction false} ContainsAt(s: string, sub: string, i: nat)
    requires i + |sub| <= |s|
    requires s[i..i + |sub|] == sub
    ensures Contains(s, sub)
    decreases i
  {
    if i == 0 {
      assert s[..|sub|] == s[0..|sub|];
    } else {
      assert s[1..][i - 1..i - 1 + |sub|] == s[i..i + |sub|];
      ContainsAt(s[1..], sub, i - 1);
    }
  }

  /** strings.Join */
  function Join(parts: seq<string>, sep: string): string
  {
    if |parts| == 0 then ""
    else if |parts| == 1 then parts[0]
    else parts[0] + sep + Join(parts[1..], sep)
  }

  predicate NoChar(s: string, c: char)
  {
    forall i :: 0 <= i < |s| ==> s[i] != c
  }

  /** strings.Split on a one-character separator: the partner of Join. */
  function SplitOn(s: string, c: char): (r: seq<string>)
    ensures |r| >= 1
    decreases |s|
  {
    if |s| == 0 then [""]
    else if s[0] == c then [""] + SplitOn(s[1..], c)
    else
      var rest := SplitOn(s[1..], c);
      [[s[0]] + rest[0]] + rest[1..]
  }

  /** Splitting `x + [c] + y` at `c`, when `x` has no `c`, yields `x` first. */
  lemma {:induction false} SplitOnConcat(x: string, c: char, y: string)
    requires NoChar(x, c)
    ensures SplitOn(x + [c] + y, c) == [x] + SplitOn(y, c)
    decreases |x|
  {
    if |x| == 0 {
      assert x + [c] + y == [c] + y;
      assert ([c] + y)[1..] == y;
    } else {
      assert (x + [c] + y)[1..] == x[1..] + [c] + y;
      SplitOnConcat(x[1..], c, y);
      assert [x[0]] + x[1..] == x;
    }
  }

  /** A string without `c` splits into itself. */
  lemma {:induction false} SplitOnNoChar(x: string, c: char)
    requires NoChar(x, c)
    ensures SplitOn(x, c) == [x]
    decreases |x|
  {
    if |x| > 0 {
      SplitOnNoChar(x[1..], c);
      assert [x[0]] + x[1..] == x;
    }
  }

  /** Join and SplitOn are inverse when the separator starts with a
      character that no part contains; the separator's tail stays glued to
      the front of every part after the first. */
  lemma {:induction false} SplitJoin(parts: seq<string>, c: char, rest: string)
    requires |parts| >= 1
    requires forall i :: 0 <= i < |parts| ==> NoChar(parts[i], c)
    requires NoChar(rest, c)
    ensures SplitOn(Join(parts, [c] + rest), c)
            == [parts[0]] + seq(|parts| - 1, i requires 0 <= i < |parts| - 1 => rest + parts[i + 1])
    decreases |parts|
  {
    var sep := [c] + rest;
    if |parts| == 1 {
      SplitOnNoChar(parts[0], c);
    } else {
      var tail := Join(parts[1..], sep);
      assert Join(parts, sep) == parts[0] + [c] + (rest + tail);
      SplitOnConcat(parts[0], c, rest + tail);
      SplitJoin(parts[1..], c, rest);
      var st := SplitOn(tail, c);
      assert st[0] == parts[1];
      SplitOnPrefix(rest, c, tail);
      var expected := seq(|parts| - 1, i requires 0 <= i < |parts| - 1 => rest + parts[i + 1]);
      assert SplitOn(rest + tail, c) == [rest + st[0]] + st[1..];
      assert [rest + st[0]] + st[1..] == expected;
    }
  }

  /** Prefixing a `c`-free string glues it onto the first piece. */
  lemma {:induction false} SplitOnPrefix(p: string, c: char, y: string)
    requires NoChar(p, c)
    ensures SplitOn(p + y, c) == [p + SplitOn(y, c)[0]] + SplitOn(y, c)[1..]
    decreases |p|
  {
    if |p| > 0 {
      assert (p + y)[1..] == p[1..] + y;
      SplitOnPrefix(p[1..], c, y);
      assert [p[0]] + (p[1..] + SplitOn(y, c)[0]) == p + SplitOn(y, c)[0];
    } else {
      var sy := SplitOn(y, c);
      assert p + y == y;
      assert p + sy[0] == sy[0];
      assert [sy[0]] + sy[1..] == sy;
    }
  }

  /** Bytes to a Go string, one char per byte. */
  function BytesToString(b: seq<byte>): (s: string)
    ensures |s| == |b|
    ensures forall i :: 0 <= i < |b| ==> s[i] as int == b[i] as int
  {
    seq(|b|, i requires 0 <= i < |b| => (b[i] as int) as char)
  }
}
