/** The service-key gate: documentation and webhook paths pass freely; every
    other request must carry `x-api-key`, either the development literal or
    a hex-encoded AES-CBC encryption of `{"date_time": <RFC 3339 instant>}`
    no more than a minute old. JSON decoding and RFC 3339 parsing (section
    5.6 of RFC 3339) are oracles. */
module ApiKey {
  import opened Common
  import opened Http
  import opened Response
  import Crypto
  import Hex

  const KeyHeader: string := "X-Api-Key"
  const DevKey: string := "!!Devkrest!!"

  /** Paths that bypass the gate. */
  predicate Bypassed(path: string)
  {
    Contains(path, "webhook") || Contains(path, "swagger")
  }

  /** The instant inside a key: decrypt, read `date_time` from the JSON
      payload (`dateTimeOf`: None when the JSON is invalid, "" when the
      field is absent), then parse it (`parseTime`: None when it is not an
      RFC 3339 timestamp). */
  function TokenTime(key: string, decrypt: Crypto.Block -> Crypto.Block,
                     dateTimeOf: string -> Option<string>, parseTime: string -> Option<int>): Option<int>
  {
    match Crypto.DecryptKey(key, decrypt)
    case Plain(text) =>
      (match dateTimeOf(text)
       case None => None
       case Some(dt) => parseTime(dt))
    case _ => None
  }

  /** APIKey: the cascade bypass, missing key, development key, decryption,
      JSON, timestamp, freshness. Every refusal is the same
      UnauthorizedAccess reply except the missing key (TokenMissing). A key
      whose decryption makes DecryptKey panic aborts the request: no
      middleware of the chain recovers, so no response is written. */
  function APIKey(req: Request, now: int, decrypt: Crypto.Block -> Crypto.Block,
                  dateTimeOf: string -> Option<string>, parseTime: string -> Option<int>): (d: Decision)
    ensures Bypassed(req.path) ==> d == Forward(req)
    ensures !Bypassed(req.path) && Header(req, KeyHeader) == "" ==> d == Reply(Write(TokenMissing, Bare))
    ensures !Bypassed(req.path) && Header(req, KeyHeader) == DevKey ==> d == Forward(req)
    ensures var key := Header(req, KeyHeader);
      !Bypassed(req.path) && key != "" && key != DevKey ==>
        && (d.Aborted? <==> Crypto.DecryptKey(key, decrypt).Panicked?)
        && (d.Forward? <==> TokenTime(key, decrypt, dateTimeOf, parseTime).Some?
                            && now - TokenTime(key, decrypt, dateTimeOf, parseTime).value <= Minute)
        && (d.Reply? ==> d == Reply(Write(UnauthorizedAccess, Bare)))
    ensures d.Aborted? ==> !Bypassed(req.path) && Header(req, KeyHeader) != "" && Header(req, KeyHeader) != DevKey
    ensures d.Forward? ==> d.req == req
  {
    if Bypassed(req.path) then Forward(req)
    else
      var key := Header(req, KeyHeader);
      if key == "" then Reply(Write(TokenMissing, Bare))
      else if key == DevKey then Forward(req)
      else if Crypto.DecryptKey(key, decrypt).Panicked? then Aborted(Crypto.DecryptKey(key, decrypt).reason)
      else match TokenTime(key, decrypt, dateTimeOf, parseTime)
        case None => Reply(Write(UnauthorizedAccess, Bare))
        case Some(t) =>
          if now - t > Minute then Reply(Write(UnauthorizedAccess, Bare)) else Forward(req)
  }

  /** The anti-replay window, end to end: for a key produced by a client
      from payload `p` whose timestamp parses to `t`, the request passes
      exactly when it is at most a minute old; so 59 s and 60 s pass, 61 s
      does not, and a timestamp in the future passes. */
  lemma FreshnessWindow(req: Request, now: int, encrypt: Crypto.Block -> Crypto.Block,
                        decrypt: Crypto.Block -> Crypto.Block, p: seq<byte>, dt: string, t: int,
                        dateTimeOf: string -> Option<string>, parseTime: string -> Option<int>)
    requires Crypto.Inverse(encrypt, decrypt)
    requires !Bypassed(req.path)
    requires Header(req, KeyHeader) == Crypto.ClientKey(encrypt, p)
    requires dateTimeOf(BytesToString(p)) == Some(dt) && parseTime(dt) == Some(t)
    ensures APIKey(req, now, decrypt, dateTimeOf, parseTime).Forward? <==> now - t <= Minute
    ensures now - t == 59 * Second ==> APIKey(req, now, decrypt, dateTimeOf, parseTime).Forward?
    ensures now - t == 60 * Second ==> APIKey(req, now, decrypt, dateTimeOf, parseTime).Forward?
    ensures now - t == 61 * Second ==> APIKey(req, now, decrypt, dateTimeOf, parseTime).Reply?
    ensures now < t ==> APIKey(req, now, decrypt, dateTimeOf, parseTime).Forward?
  {
    Crypto.DecryptKeyRoundTrip(encrypt, decrypt, p);
    assert |Header(req, KeyHeader)| != |DevKey|;
  }

  /** A key that is not hex, or whose length is not whole blocks, is
      refused whatever the oracles answer. */
  lemma MalformedKeyRefused(req: Request, now: int, decrypt: Crypto.Block -> Crypto.Block,
                            dateTimeOf: string -> Option<string>, parseTime: string -> Option<int>)
    requires !Bypassed(req.path)
    requires Header(req, KeyHeader) != "" && Header(req, KeyHeader) != DevKey
    requires var k := Hex.Decode(Header(req, KeyHeader));
      !k.Bytes? || |k.bytes| % Crypto.BlockSize != 0
    ensures APIKey(req, now, decrypt, dateTimeOf, parseTime) == Reply(Write(UnauthorizedAccess, Bare))
  {
  }

  /** A well-formed key of one block whose decryption ends in a byte above
      16 gets no answer at all: the gate aborts and the wrapped handler never
      runs. */
  lemma OverlongPadAborts(req: Request, now: int, encrypt: Crypto.Block -> Crypto.Block,
                          decrypt: Crypto.Block -> Crypto.Block, b: Crypto.Block,
                          dateTimeOf: string -> Option<string>, parseTime: string -> Option<int>)
    requires Crypto.Inverse(encrypt, decrypt)
    requires !Bypassed(req.path)
    requires Header(req, KeyHeader) == Hex.Encode(Crypto.CbcEncrypt(encrypt, Crypto.InitVector, b))
    requires b[15] as int > 16
    ensures APIKey(req, now, decrypt, dateTimeOf, parseTime).Aborted?
    ensures NextCalls(APIKey(req, now, decrypt, dateTimeOf, parseTime)) == 0
  {
    Crypto.DecryptKeyPanics(encrypt, decrypt, b);
    assert |Header(req, KeyHeader)| != |DevKey|;
  }
}
