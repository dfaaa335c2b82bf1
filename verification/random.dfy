/** Bounded random helpers. The cryptographic source is an oracle:
    `draw(n)` is what rand.Int answers for the bound n (a value in [0, n)
    or an error), and for the OTP `draw(i)` is the answer to the i-th call
    for a decimal digit. */
module Random {
  import opened Common

  const Digits: string := "0123456789"

  type Digit = d: int | 0 <= d < 10

  /** The result of a call that may panic. */
  datatype Drawn = Drawn(value: int, err: Option<Error>) | RandPanicked(reason: string)

  const NonPositiveBound: string := "crypto/rand: argument to Int is <= 0"

  /** Whether the oracle keeps its promise for bound n. */
  predicate InBound(draw: int -> Result<int>, n: int)
  {
    draw(n).Ok? ==> 0 <= draw(n).value < n
  }

  /** RandomNumber as written: the bound max - min + 1 and the final sum
      are computed in 64-bit arithmetic, and rand.Int panics on a bound
      that is not positive. */
  function RandomNumber(min: int, max: int, draw: int -> Result<int>): (r: Drawn)
    ensures Wrap64(max - min + 1) <= 0 <==> r.RandPanicked?
    ensures Wrap64(max - min + 1) > 0 && draw(Wrap64(max - min + 1)).Err? ==>
              r == Drawn(0, Some(draw(Wrap64(max - min + 1)).error))
    ensures r.Drawn? && r.err.None? ==> InInt64(r.value)
  {
    var bound := Wrap64(max - min + 1);
    if bound <= 0 then RandPanicked(NonPositiveBound)
    else match draw(bound)
      case Err(e) => Drawn(0, Some(e))
      case Ok(v) => Drawn(Wrap64(v + min), None)
  }

  /** Whenever max - min + 1 fits in 64 bits and the oracle keeps its
      promise, the result lies in [min, max]. */
  lemma RandomNumberInRange(min: int, max: int, draw: int -> Result<int>)
    requires InInt64(min) && InInt64(max) && min <= max && InInt64(max - min + 1)
    requires InBound(draw, max - min + 1) && draw(max - min + 1).Ok?
    ensures RandomNumber(min, max, draw).Drawn?
    ensures RandomNumber(min, max, draw).err.None?
    ensures min <= RandomNumber(min, max, draw).value <= max
  {
  }

  /** The full int64 range overflows the bound to 0, so RandomNumber
      panics where the range is valid. */
  lemma RandomNumberFullRangePanics(draw: int -> Result<int>)
    ensures RandomNumber(MinInt64, MaxInt64, draw).RandPanicked?
    ensures RandomNumberWide(MinInt64, MaxInt64, draw).Drawn?
  {
    assert MaxInt64 - MinInt64 + 1 == TwoTo64;
  }

  /** RandomNumber as evidently intended: the bound computed without
      overflow. Then it never panics for min <= max and the result always
      lies in [min, max]. */
  function RandomNumberWide(min: int, max: int, draw: int -> Result<int>): (r: Drawn)
    ensures min <= max <==> r.Drawn?
    ensures min <= max && draw(max - min + 1).Err? ==> r == Drawn(0, Some(draw(max - min + 1).error))
    ensures min <= max && InBound(draw, max - min + 1) && r.err.None? ==> min <= r.value <= max
    ensures InInt64(min) && InInt64(max) && InInt64(max - min + 1) && InBound(draw, max - min + 1) ==>
              r == RandomNumber(min, max, draw)
  {
    var bound := max - min + 1;
    if bound <= 0 then RandPanicked(NonPositiveBound)
    else match draw(bound)
      case Err(e) => Drawn(0, Some(e))
      case Ok(v) => Drawn(v + min, None)
  }

  /** The result of OTP. */
  datatype Otp = Otp(code: string, err: Option<Error>) | OtpPanicked(reason: string)

  /** The first failing draw among the first n, if any. */
  function FirstFailure(n: nat, draw: nat -> Result<Digit>): (k: Option<nat>)
    ensures k.Some? ==> k.value < n && draw(k.value).Err? && forall i :: 0 <= i < k.value ==> draw(i).Ok?
    ensures k.None? ==> forall i :: 0 <= i < n ==> draw(i).Ok?
  {
    if n == 0 then None
    else match FirstFailure(n - 1, draw)
      case Some(k) => Some(k)
      case None => if draw(n - 1).Err? then Some(n - 1) else None
  }

  /** OTP: one digit per requested character, each drawn independently;
      a failed draw abandons the code. A negative length panics in
      make. */
  method OTP(length: int, draw: nat -> Result<Digit>) returns (r: Otp)
    ensures length < 0 <==> r.OtpPanicked?
    ensures length >= 0 && FirstFailure(length, draw).Some? ==>
              r == Otp("", Some(draw(FirstFailure(length, draw).value).error))
    ensures length >= 0 && FirstFailure(length, draw).None? ==>
      && r.Otp? && r.err.None?
      && |r.code| == length
      && (forall i :: 0 <= i < length ==> r.code[i] == Digits[draw(i).value])
      && (forall i :: 0 <= i < length ==> r.code[i] in Digits)
  {
    if length < 0 {
      return OtpPanicked("runtime error: makeslice: len out of range");
    }
    var code: string := [];
    var i := 0;
    while i < length
      invariant 0 <= i <= length
      invariant |code| == i
      invariant forall j :: 0 <= j < i ==> draw(j).Ok? && code[j] == Digits[draw(j).value]
    {
      match draw(i)
      case Err(e) =>
        assert FirstFailure(length, draw) == Some(i) by { FirstFailureIs(length, draw, i); }
        return Otp("", Some(e));
      case Ok(d) =>
        code := code + [Digits[d]];
      i := i + 1;
    }
    NoFailure(length, draw);
    return Otp(code, None);
  }

  /** When every draw succeeds there is no first failure. */
  lemma {:induction false} NoFailure(n: nat, draw: nat -> Result<Digit>)
    requires forall i :: 0 <= i < n ==> draw(i).Ok?
    ensures FirstFailure(n, draw).None?
  {
    if n > 0 {
      NoFailure(n - 1, draw);
    }
  }

  /** A failing draw preceded only by successes is the first failure. */
  lemma {:induction false} FirstFailureIs(n: nat, draw: nat -> Result<Digit>, k: nat)
    requires k < n && draw(k).Err? && forall i :: 0 <= i < k ==> draw(i).Ok?
    ensures FirstFailure(n, draw) == Some(k)
    decreases n
  {
    if k < n - 1 {
      FirstFailureIs(n - 1, draw, k);
    } else {
      assert FirstFailure(n - 1, draw).None?;
    }
  }
}
